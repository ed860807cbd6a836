/** The recipient cap with transactions interleaved statement by statement.
    Statements see committed rows and their own transaction's writes; what a transaction
    wrote takes effect when it commits, and its row locks end with it. */
module AllowanceLocking {
  import opened SmsTypes
  import opened SetSizes
  import opened RecipientAllowance

  type TxnId = nat

  datatype Kind = Dispatching | Reporting

  /** How far a transaction got with the SIM and number it is working on. */
  datatype Progress =
    | Idle
    | Reserved(slot: Slot)    // the SIM row was updated by `reserve`
    | Absent(slot: Slot)      // the number was looked up and holds no slot
    | Counted(slot: Slot)     // there was room for it
    | QuotaTaken(slot: Slot)  // the SIM row was updated by the quota count

  datatype Txn = Txn(
    kind: Kind, progress: Progress,
    inserted: set<Slot>,   // rows it will add
    recreated: set<Slot>,  // those of them added by `recordSent`
    bumped: set<Slot>,     // rows whose messages_sent it will raise
    deleted: set<Slot>)    // rows it will delete

  /** `recreated` remembers the rows `recordSent` added because a release had removed them. */
  datatype World = World(rows: Ledger, recreated: set<Slot>, locks: map<SimId, TxnId>, txns: map<TxnId, Txn>)

  datatype Statement =
    | Begin(kind: Kind)
    | Reserve(slot: Slot)
    | GiveBack    // the device's window was taken: on to the next SIM
    | SelectHeld
    | CountUsed
    | InsertClaim
    | QuotaUpdate(slot: Slot)
    | UpsertSent
    | DeleteUnused(slot: Slot)
    | Commit
    | Rollback

  const NO_ROWS := World(map[], {}, map[], map[])

  function On(slots: set<Slot>, sim: SimId, day: Day): set<Slot> {
    set s | s in slots && s.sim == sim && s.day == day
  }

  predicate LockFree(w: World, t: TxnId, sim: SimId) {
    sim !in w.locks || w.locks[sim] == t
  }

  /** Another transaction has written this row and not ended: a statement on it has to wait. */
  predicate RowBusy(w: World, t: TxnId, slot: Slot) {
    exists o :: o in w.txns && o != t && slot in w.txns[o].inserted + w.txns[o].bumped + w.txns[o].deleted
  }

  function Visible(w: World, t: TxnId): set<Slot>
    requires t in w.txns
  {
    (w.rows.Keys - w.txns[t].deleted) + w.txns[t].inserted
  }

  function Put(w: World, t: TxnId, txn: Txn): World {
    w.(txns := w.txns[t := txn])
  }

  function Locked(w: World, t: TxnId, sim: SimId, locks: bool): map<SimId, TxnId> {
    if locks then w.locks[sim := t] else w.locks
  }

  function Unlocked(locks: map<SimId, TxnId>, t: TxnId): map<SimId, TxnId> {
    map sim | sim in locks && locks[sim] != t :: locks[sim]
  }

  function Raised(rows: Ledger, txn: Txn): Ledger {
    map s | s in (rows.Keys - txn.deleted) + txn.inserted ::
      (if s in rows then rows[s] else 0) + (if s in txn.bumped || s in txn.recreated then 1 else 0)
  }

  /** One statement of transaction `t`. A statement that has to wait changes nothing. A dispatch
      whose SIM is full, or sits in a device that is taken, may go on with the next SIM, and keeps
      the row locks it has. The flags say whether `reserve`, and whether the quota count, hold the
      SIM row's lock to the end. */
  function Execute(limits: map<SimId, nat>, reserveLocks: bool, quotaLocks: bool, w: World, t: TxnId,
                   statement: Statement): World {
    if statement.Begin? then
      if t in w.txns then w else Put(w, t, Txn(statement.kind, Idle, {}, {}, {}, {}))
    else if t !in w.txns then w
    else
      var txn := w.txns[t];
      match statement
      case Begin(_) => w
      case Reserve(slot) =>
        if !txn.kind.Dispatching? || !txn.progress.Idle? || (reserveLocks && !LockFree(w, t, slot.sim)) then w
        else Put(w, t, txn.(progress := Reserved(slot))).(locks := Locked(w, t, slot.sim, reserveLocks))
      case GiveBack =>
        if !txn.progress.Reserved? then w else Put(w, t, txn.(progress := Idle))
      case SelectHeld =>
        if !txn.progress.Reserved? then w
        else Put(w, t, txn.(progress := if txn.progress.slot in Visible(w, t) then Idle else Absent(txn.progress.slot)))
      case CountUsed =>
        if !txn.progress.Absent? then w
        else
          var slot := txn.progress.slot;
          var room := slot.sim in limits ==> |On(Visible(w, t), slot.sim, slot.day)| < limits[slot.sim];
          Put(w, t, txn.(progress := if room then Counted(slot) else Idle))
      case InsertClaim =>
        if !txn.progress.Counted? || RowBusy(w, t, txn.progress.slot) then w
        else
          var slot := txn.progress.slot;
          Put(w, t, txn.(progress := Idle, inserted := txn.inserted + if slot in w.rows then {} else {slot}))
      case QuotaUpdate(slot) =>
        if !txn.kind.Reporting? || !txn.progress.Idle? || (quotaLocks && !LockFree(w, t, slot.sim)) then w
        else Put(w, t, txn.(progress := QuotaTaken(slot))).(locks := Locked(w, t, slot.sim, quotaLocks))
      case UpsertSent =>
        if !txn.progress.QuotaTaken? || RowBusy(w, t, txn.progress.slot) || txn.progress.slot in txn.deleted then w
        else
          var slot := txn.progress.slot;
          if slot in w.rows
          then Put(w, t, txn.(progress := Idle, bumped := txn.bumped + {slot}))
          else Put(w, t, txn.(progress := Idle, inserted := txn.inserted + {slot}, recreated := txn.recreated + {slot}))
      case DeleteUnused(slot) =>
        if !txn.kind.Reporting? || slot !in w.rows || w.rows[slot] != 0 || slot in txn.bumped || RowBusy(w, t, slot)
        then w
        else Put(w, t, txn.(deleted := txn.deleted + {slot}))
      case Commit =>
        World(Raised(w.rows, txn), w.recreated + txn.recreated, Unlocked(w.locks, t), w.txns - {t})
      case Rollback =>
        w.(locks := Unlocked(w.locks, t), txns := w.txns - {t})
  }

  datatype Turn = Turn(t: TxnId, statement: Statement)

  function Interleave(limits: map<SimId, nat>, reserveLocks: bool, quotaLocks: bool, schedule: seq<Turn>): World
    decreases |schedule|
  {
    if schedule == [] then NO_ROWS
    else
      var last := schedule[|schedule| - 1];
      var before := Interleave(limits, reserveLocks, quotaLocks, schedule[..|schedule| - 1]);
      Execute(limits, reserveLocks, quotaLocks, before, last.t, last.statement)
  }

  /** The cap: apart from rows that had to be re-created, no SIM-day has more distinct
      recipients than its limit. */
  ghost predicate CapHolds(limits: map<SimId, nat>, w: World) {
    forall sim, day :: sim in limits ==> |On(w.rows.Keys - w.recreated, sim, day)| <= limits[sim]
  }

  // ---- with the lock ----------------------------------------------------------------------------

  ghost predicate HoldsLocks(w: World, t: TxnId)
    requires t in w.txns
  {
    var txn := w.txns[t];
    txn.kind.Dispatching? ==>
      && (!txn.progress.Idle? ==> txn.progress.slot.sim in w.locks && w.locks[txn.progress.slot.sim] == t)
      && (forall s :: s in txn.inserted ==> s.sim in w.locks && w.locks[s.sim] == t)
  }

  ghost predicate WellFormed(w: World, t: TxnId)
    requires t in w.txns
  {
    var txn := w.txns[t];
    && (txn.kind.Dispatching? ==> txn.deleted == {} && txn.recreated == {} && !txn.progress.QuotaTaken?)
    && (!txn.progress.Idle? && !txn.progress.QuotaTaken? ==> txn.kind.Dispatching?)
    && (txn.kind.Reporting? ==> txn.inserted <= txn.recreated)
  }

  ghost predicate RoomRemains(limits: map<SimId, nat>, w: World, t: TxnId)
    requires t in w.txns
  {
    var txn := w.txns[t];
    txn.progress.Counted? && txn.progress.slot.sim in limits ==>
      var sim, day := txn.progress.slot.sim, txn.progress.slot.day;
      |On((w.rows.Keys - w.recreated) + txn.inserted, sim, day)| < limits[sim]
  }

  /** The rows a SIM has, or is about to have, that were claimed. */
  ghost function ClaimedRows(w: World, sim: SimId): set<Slot> {
    (w.rows.Keys - w.recreated)
    + if sim in w.locks && w.locks[sim] in w.txns
      then w.txns[w.locks[sim]].inserted - w.txns[w.locks[sim]].recreated else {}
  }

  ghost predicate TxnsInv(limits: map<SimId, nat>, w: World) {
    forall t :: t in w.txns ==> HoldsLocks(w, t) && WellFormed(w, t) && RoomRemains(limits, w, t)
  }

  ghost predicate LockInv(limits: map<SimId, nat>, w: World) {
    && TxnsInv(limits, w)
    && (forall sim, day :: sim in limits ==> |On(ClaimedRows(w, sim), sim, day)| <= limits[sim])
  }

  lemma CommitKeepsRoom(limits: map<SimId, nat>, quota: bool, w: World, t: TxnId, o: TxnId)
    requires LockInv(limits, w) && t in w.txns && o in w.txns && o != t
    ensures var after := Execute(limits, true, quota, w, t, Commit);
            o in after.txns && HoldsLocks(after, o) && WellFormed(after, o) && RoomRemains(limits, after, o)
  {
    var after := Execute(limits, true, quota, w, t, Commit);
    assert HoldsLocks(w, o) && HoldsLocks(w, t) && WellFormed(w, o) && RoomRemains(limits, w, o);
    var txn := w.txns[o];
    if txn.progress.Counted? && txn.progress.slot.sim in limits {
      var sim, day := txn.progress.slot.sim, txn.progress.slot.day;
      SubsetSize(On((after.rows.Keys - after.recreated) + txn.inserted, sim, day),
                 On((w.rows.Keys - w.recreated) + txn.inserted, sim, day));
    }
  }

  /** Short of a commit, a statement leaves the rows, other transactions and their locks alone. */
  lemma OthersStand(limits: map<SimId, nat>, quota: bool, w: World, t: TxnId, statement: Statement, o: TxnId)
    requires o in w.txns && o != t && !statement.Commit?
    ensures var after := Execute(limits, true, quota, w, t, statement);
            && after.rows == w.rows && after.recreated == w.recreated
            && o in after.txns && after.txns[o] == w.txns[o]
            && forall sim :: sim in w.locks && w.locks[sim] == o ==> sim in after.locks && after.locks[sim] == o
  {
    hide RowBusy, On, Visible;
  }

  lemma OtherTxnsKeep(limits: map<SimId, nat>, quota: bool, w: World, t: TxnId, statement: Statement, o: TxnId)
    requires LockInv(limits, w) && o in w.txns && o != t
    ensures var after := Execute(limits, true, quota, w, t, statement);
            o in after.txns && HoldsLocks(after, o) && WellFormed(after, o) && RoomRemains(limits, after, o)
  {
    if statement.Commit? && t in w.txns {
      hide Execute, HoldsLocks, WellFormed, RoomRemains;
      CommitKeepsRoom(limits, quota, w, t, o);
    } else {
      assert HoldsLocks(w, o) && WellFormed(w, o) && RoomRemains(limits, w, o);
      if statement.Commit? {
        assert Execute(limits, true, quota, w, t, statement) == w;
      } else {
        hide Execute, On;
        OthersStand(limits, quota, w, t, statement, o);
      }
    }
  }

  lemma OwnTxnKeeps(limits: map<SimId, nat>, quota: bool, w: World, t: TxnId, statement: Statement)
    requires LockInv(limits, w)
    ensures var after := Execute(limits, true, quota, w, t, statement);
            t in after.txns ==> HoldsLocks(after, t) && WellFormed(after, t) && RoomRemains(limits, after, t)
  {
    if t in w.txns {
      assert HoldsLocks(w, t) && WellFormed(w, t) && RoomRemains(limits, w, t);
      var txn := w.txns[t];
      if txn.progress.Absent? {
        assert Visible(w, t) == w.rows.Keys + txn.inserted;
        var sim, day := txn.progress.slot.sim, txn.progress.slot.day;
        SubsetSize(On((w.rows.Keys - w.recreated) + txn.inserted, sim, day), On(Visible(w, t), sim, day));
      }
    }
  }

  lemma InsertStaysWithinLimit(limits: map<SimId, nat>, quota: bool, w: World, t: TxnId)
    requires LockInv(limits, w) && t in w.txns && w.txns[t].progress.Counted? && w.txns[t].progress.slot.sim in limits
    ensures var slot := w.txns[t].progress.slot;
            var claimed := ClaimedRows(Execute(limits, true, quota, w, t, InsertClaim), slot.sim);
            |On(claimed, slot.sim, slot.day)| <= limits[slot.sim]
  {
    assert HoldsLocks(w, t) && WellFormed(w, t) && RoomRemains(limits, w, t);
    var txn := w.txns[t];
    var sim, day := txn.progress.slot.sim, txn.progress.slot.day;
    var all := On((w.rows.Keys - w.recreated) + txn.inserted, sim, day);
    SubsetSize(On(ClaimedRows(Execute(limits, true, quota, w, t, InsertClaim), sim), sim, day),
               all + {txn.progress.slot});
  }

  lemma ClaimsStayWithinLimit(limits: map<SimId, nat>, quota: bool, w: World, t: TxnId, statement: Statement,
                              sim: SimId, day: Day)
    requires LockInv(limits, w) && sim in limits
    ensures |On(ClaimedRows(Execute(limits, true, quota, w, t, statement), sim), sim, day)| <= limits[sim]
  {
    hide Execute, TxnsInv, ClaimedRows, On;
    if && statement.InsertClaim? && t in w.txns && w.txns[t].progress.Counted?
       && w.txns[t].progress.slot.sim == sim && w.txns[t].progress.slot.day == day {
      InsertStaysWithinLimit(limits, quota, w, t);
    } else {
      ClaimsDoNotGrow(limits, quota, w, t, statement, sim, day);
      SubsetSize(On(ClaimedRows(Execute(limits, true, quota, w, t, statement), sim), sim, day),
                 On(ClaimedRows(w, sim), sim, day));
    }
  }

  /** A commit moves a transaction's own claims into the table, and nothing else. */
  lemma ClaimsAtCommit(limits: map<SimId, nat>, quota: bool, w: World, t: TxnId, sim: SimId)
    requires LockInv(limits, w) && t in w.txns
    ensures forall s :: s in ClaimedRows(Execute(limits, true, quota, w, t, Commit), sim) && s.sim == sim ==>
              s in ClaimedRows(w, sim)
  {
    hide RoomRemains, On;
    assert HoldsLocks(w, t) && WellFormed(w, t);
    var after, txn := Execute(limits, true, quota, w, t, Commit), w.txns[t];
    forall s | s in after.rows.Keys - after.recreated && s.sim == sim ensures s in ClaimedRows(w, sim) {
      assert s in w.rows || s in txn.inserted;
    }
  }

  lemma ClaimsDoNotGrow(limits: map<SimId, nat>, quota: bool, w: World, t: TxnId, statement: Statement, sim: SimId,
                        day: Day)
    requires LockInv(limits, w)
    requires statement.InsertClaim? && t in w.txns && w.txns[t].progress.Counted? ==>
               w.txns[t].progress.slot.sim != sim || w.txns[t].progress.slot.day != day
    ensures On(ClaimedRows(Execute(limits, true, quota, w, t, statement), sim), sim, day) <= On(ClaimedRows(w, sim),
                                                                                                sim, day)
  {
    hide RowBusy, RoomRemains;
    if statement.Commit? && t in w.txns {
      hide Execute, ClaimedRows;
      ClaimsAtCommit(limits, quota, w, t, sim);
    } else {
      if t in w.txns { assert HoldsLocks(w, t) && WellFormed(w, t); }
      if sim in w.locks && w.locks[sim] in w.txns { assert HoldsLocks(w, w.locks[sim]); }
    }
  }

  lemma ExecuteKeepsInv(limits: map<SimId, nat>, quota: bool, w: World, t: TxnId, statement: Statement)
    requires LockInv(limits, w)
    ensures LockInv(limits, Execute(limits, true, quota, w, t, statement))
  {
    var after := Execute(limits, true, quota, w, t, statement);
    hide Execute, ClaimedRows, HoldsLocks, WellFormed, RoomRemains;
    forall o | o in after.txns ensures HoldsLocks(after, o) && WellFormed(after, o) && RoomRemains(limits, after, o) {
      OnlyBeginAdds(limits, quota, w, t, statement, o);
      if o == t {
        OwnTxnKeeps(limits, quota, w, t, statement);
      } else {
        OtherTxnsKeep(limits, quota, w, t, statement, o);
      }
    }
    forall sim, day | sim in limits ensures |On(ClaimedRows(after, sim), sim, day)| <= limits[sim] {
      ClaimsStayWithinLimit(limits, quota, w, t, statement, sim, day);
    }
  }

  lemma OnlyBeginAdds(limits: map<SimId, nat>, quota: bool, w: World, t: TxnId, statement: Statement, o: TxnId)
    requires o in Execute(limits, true, quota, w, t, statement).txns
    ensures o == t || o in w.txns
  {
  }

  lemma {:induction false} InterleavingsKeepInv(limits: map<SimId, nat>, quota: bool, schedule: seq<Turn>)
    ensures LockInv(limits, Interleave(limits, true, quota, schedule))
    decreases |schedule|
  {
    hide LockInv, Execute;
    if schedule == [] {
      NoRowsSound(limits);
    } else {
      var n := |schedule| - 1;
      InterleavingsKeepInv(limits, quota, schedule[..n]);
      ExecuteKeepsInv(limits, quota, Interleave(limits, true, quota, schedule[..n]), schedule[n].t,
                      schedule[n].statement);
    }
  }

  lemma NoRowsSound(limits: map<SimId, nat>)
    ensures LockInv(limits, NO_ROWS)
  {
    forall sim, day ensures On(ClaimedRows(NO_ROWS, sim), sim, day) == {} {}
  }

  lemma LockedInterleavingsKeepCap(limits: map<SimId, nat>, quota: bool, schedule: seq<Turn>)
    ensures CapHolds(limits, Interleave(limits, true, quota, schedule))
  {
    hide Interleave;
    var w := Interleave(limits, true, quota, schedule);
    InterleavingsKeepInv(limits, quota, schedule);
    forall sim, day | sim in limits ensures |On(w.rows.Keys - w.recreated, sim, day)| <= limits[sim] {
      SubsetSize(On(w.rows.Keys - w.recreated, sim, day), On(ClaimedRows(w, sim), sim, day));
    }
  }

  // ---- with both locks --------------------------------------------------------------------------

  /** The count is exact: a transaction about to take a slot still has room for it, rows that
      were re-created in the meantime included. */
  ghost predicate CountExact(limits: map<SimId, nat>, w: World) {
    forall t :: t in w.txns ==> StillHasRoom(limits, w, t)
  }

  ghost predicate StillHasRoom(limits: map<SimId, nat>, w: World, t: TxnId)
    requires t in w.txns
  {
    var txn := w.txns[t];
    txn.progress.Counted? && txn.progress.slot.sim in limits ==>
      |On(w.rows.Keys + txn.inserted, txn.progress.slot.sim, txn.progress.slot.day)| < limits[txn.progress.slot.sim]
  }

  /** Whoever works on a SIM, dispatching or reporting, holds its lock. */
  ghost predicate OwnsSims(w: World, t: TxnId)
    requires t in w.txns
  {
    var txn := w.txns[t];
    && (!txn.progress.Idle? ==> txn.progress.slot.sim in w.locks && w.locks[txn.progress.slot.sim] == t)
    && (forall s :: s in txn.inserted ==> s.sim in w.locks && w.locks[s.sim] == t)
  }

  ghost predicate ExactInv(limits: map<SimId, nat>, w: World) {
    forall t :: t in w.txns ==> OwnsSims(w, t) && WellFormed(w, t) && StillHasRoom(limits, w, t)
  }

  lemma CommitLeavesCountsExact(limits: map<SimId, nat>, w: World, t: TxnId, o: TxnId)
    requires ExactInv(limits, w) && t in w.txns && o in w.txns && o != t
    ensures var after := Execute(limits, true, true, w, t, Commit);
            o in after.txns && OwnsSims(after, o) && WellFormed(after, o) && StillHasRoom(limits, after, o)
  {
    hide On;
    assert OwnsSims(w, o) && WellFormed(w, o) && StillHasRoom(limits, w, o) && OwnsSims(w, t);
    var after, txn := Execute(limits, true, true, w, t, Commit), w.txns[o];
    if txn.progress.Counted? {
      var sim, day := txn.progress.slot.sim, txn.progress.slot.day;
      CommitAddsNothingOn(w, t, sim, day, txn.inserted);
      SubsetSize(On(after.rows.Keys + txn.inserted, sim, day), On(w.rows.Keys + txn.inserted, sim, day));
    }
  }

  lemma CommitAddsNothingOn(w: World, t: TxnId, sim: SimId, day: Day, more: set<Slot>)
    requires t in w.txns && forall s :: s in w.txns[t].inserted ==> s.sim != sim
    ensures On(Raised(w.rows, w.txns[t]).Keys + more, sim, day) <= On(w.rows.Keys + more, sim, day)
  {
  }

  lemma OtherTxnsStayExact(limits: map<SimId, nat>, w: World, t: TxnId, statement: Statement, o: TxnId)
    requires ExactInv(limits, w) && o in w.txns && o != t
    ensures var after := Execute(limits, true, true, w, t, statement);
            o in after.txns && OwnsSims(after, o) && WellFormed(after, o) && StillHasRoom(limits, after, o)
  {
    if statement.Commit? && t in w.txns {
      hide Execute, OwnsSims, WellFormed, StillHasRoom;
      CommitLeavesCountsExact(limits, w, t, o);
    } else {
      assert OwnsSims(w, o) && WellFormed(w, o) && StillHasRoom(limits, w, o);
      if statement.Commit? {
        assert Execute(limits, true, true, w, t, statement) == w;
      } else {
        hide Execute, On;
        OthersStand(limits, true, w, t, statement, o);
      }
    }
  }

  lemma OwnTxnStaysExact(limits: map<SimId, nat>, w: World, t: TxnId, statement: Statement)
    requires ExactInv(limits, w)
    ensures var after := Execute(limits, true, true, w, t, statement);
            t in after.txns ==> OwnsSims(after, t) && WellFormed(after, t) && StillHasRoom(limits, after, t)
  {
    hide RowBusy;
    if t in w.txns {
      assert OwnsSims(w, t) && WellFormed(w, t) && StillHasRoom(limits, w, t);
      if w.txns[t].kind.Dispatching? { assert Visible(w, t) == w.rows.Keys + w.txns[t].inserted; }
    }
  }

  lemma {:induction false} LockedCountsStayExact(limits: map<SimId, nat>, schedule: seq<Turn>)
    ensures ExactInv(limits, Interleave(limits, true, true, schedule))
    decreases |schedule|
  {
    hide Execute, OwnsSims, WellFormed, StillHasRoom;
    if schedule != [] {
      var last := schedule[|schedule| - 1];
      var w := Interleave(limits, true, true, schedule[..|schedule| - 1]);
      LockedCountsStayExact(limits, schedule[..|schedule| - 1]);
      var after := Execute(limits, true, true, w, last.t, last.statement);
      forall o | o in after.txns ensures OwnsSims(after, o) && WellFormed(after, o) && StillHasRoom(limits, after, o) {
        OnlyBeginAdds(limits, true, w, last.t, last.statement, o);
        if o == last.t {
          OwnTxnStaysExact(limits, w, o, last.statement);
        } else {
          OtherTxnsStayExact(limits, w, last.t, last.statement, o);
        }
      }
    }
  }

  // ---- without it -------------------------------------------------------------------------------

  /** Two workers see the same last slot free, and both take it. */
  const RACE: seq<Turn> :=
    Looks(0, Slot(7, 0, "a")) + Looks(1, Slot(7, 0, "b")) + Writes(0) + Writes(1)

  function Looks(t: TxnId, slot: Slot): seq<Turn> {
    [Turn(t, Begin(Dispatching)), Turn(t, Reserve(slot)), Turn(t, SelectHeld), Turn(t, CountUsed)]
  }

  function Writes(t: TxnId): seq<Turn> {
    [Turn(t, InsertClaim), Turn(t, Commit)]
  }

  /** The lock `reserve` takes is the one the cap rests on: with it every interleaving keeps the
      cap, whether or not the quota count locks as well, and without it one does not. */
  lemma CapNeedsTheLock(reserveLocks: bool, quotaLocks: bool)
    ensures (forall limits, schedule :: CapHolds(limits, Interleave(limits, reserveLocks, quotaLocks, schedule)))
       <==> reserveLocks
  {
    if reserveLocks {
      forall limits, schedule ensures CapHolds(limits, Interleave(limits, true, quotaLocks, schedule)) {
        LockedInterleavingsKeepCap(limits, quotaLocks, schedule);
      }
    } else {
      RaceBreaksCap(quotaLocks);
    }
  }

  lemma Then(limits: map<SimId, nat>, reserve: bool, quota: bool, schedule: seq<Turn>, turn: Turn)
    ensures Interleave(limits, reserve, quota, schedule + [turn])
         == Execute(limits, reserve, quota, Interleave(limits, reserve, quota, schedule), turn.t, turn.statement)
  {
    assert (schedule + [turn])[..|schedule|] == schedule;
  }

  lemma FourMore(limits: map<SimId, nat>, reserve: bool, quota: bool, schedule: seq<Turn>, t: TxnId,
                 a: Statement, b: Statement, c: Statement, d: Statement)
    ensures var w0 := Interleave(limits, reserve, quota, schedule);
            var w1 := Execute(limits, reserve, quota, w0, t, a);
            var w2 := Execute(limits, reserve, quota, w1, t, b);
            var w3 := Execute(limits, reserve, quota, w2, t, c);
            Interleave(limits, reserve, quota, schedule + [Turn(t, a), Turn(t, b), Turn(t, c), Turn(t, d)])
              == Execute(limits, reserve, quota, w3, t, d)
  {
    hide Execute, Interleave;
    var s1 := schedule + [Turn(t, a)];
    var s2 := s1 + [Turn(t, b)];
    var s3 := s2 + [Turn(t, c)];
    Then(limits, reserve, quota, schedule, Turn(t, a));
    Then(limits, reserve, quota, s1, Turn(t, b));
    Then(limits, reserve, quota, s2, Turn(t, c));
    Then(limits, reserve, quota, s3, Turn(t, d));
    assert s3 + [Turn(t, d)] == schedule + [Turn(t, a), Turn(t, b), Turn(t, c), Turn(t, d)];
  }

  /** Without the lock, a worker that looks while there is room gets to the insert, whatever
      the others are doing. */
  lemma LooksFindRoom(limits: map<SimId, nat>, quota: bool, schedule: seq<Turn>, t: TxnId, slot: Slot)
    requires var w := Interleave(limits, false, quota, schedule);
             && t !in w.txns && slot !in w.rows
             && (slot.sim in limits ==> |On(w.rows.Keys, slot.sim, slot.day)| < limits[slot.sim])
    ensures Interleave(limits, false, quota, schedule + Looks(t, slot))
         == Put(Interleave(limits, false, quota, schedule), t, Txn(Dispatching, Counted(slot), {}, {}, {}, {}))
  {
    hide Interleave, Execute;
    var w := Interleave(limits, false, quota, schedule);
    FourMore(limits, false, quota, schedule, t, Begin(Dispatching), Reserve(slot), SelectHeld, CountUsed);
    BeginAndReserve(limits, quota, w, t, slot);
    SelectAndCount(limits, quota, w, t, slot);
  }

  lemma BeginAndReserve(limits: map<SimId, nat>, quota: bool, w: World, t: TxnId, slot: Slot)
    requires t !in w.txns
    ensures var begun := Execute(limits, false, quota, w, t, Begin(Dispatching));
            Execute(limits, false, quota, begun, t, Reserve(slot))
              == Put(w, t, Txn(Dispatching, Reserved(slot), {}, {}, {}, {}))
  {
  }

  lemma SelectAndCount(limits: map<SimId, nat>, quota: bool, w: World, t: TxnId, slot: Slot)
    requires slot !in w.rows
    requires slot.sim in limits ==> |On(w.rows.Keys, slot.sim, slot.day)| < limits[slot.sim]
    ensures var reserved := Put(w, t, Txn(Dispatching, Reserved(slot), {}, {}, {}, {}));
            var looked := Execute(limits, false, quota, reserved, t, SelectHeld);
            Execute(limits, false, quota, looked, t, CountUsed)
              == Put(w, t, Txn(Dispatching, Counted(slot), {}, {}, {}, {}))
  {
    var reserved := Put(w, t, Txn(Dispatching, Reserved(slot), {}, {}, {}, {}));
    var looked := Execute(limits, false, quota, reserved, t, SelectHeld);
    assert Visible(reserved, t) == w.rows.Keys && Visible(looked, t) == w.rows.Keys;
  }

  /** And then it takes its slot without looking again. */
  lemma WritesTakeSlot(limits: map<SimId, nat>, quota: bool, schedule: seq<Turn>, t: TxnId, slot: Slot)
    requires var w := Interleave(limits, false, quota, schedule);
             && t in w.txns && w.txns[t] == Txn(Dispatching, Counted(slot), {}, {}, {}, {})
             && slot !in w.rows && !RowBusy(w, t, slot)
    ensures var w := Interleave(limits, false, quota, schedule);
            var after := Interleave(limits, false, quota, schedule + Writes(t));
            after.rows == w.rows[slot := 0] && after.recreated == w.recreated && after.txns == w.txns - {t}
  {
    var s1 := schedule + [Turn(t, InsertClaim)];
    Then(limits, false, quota, schedule, Turn(t, InsertClaim));
    Then(limits, false, quota, s1, Turn(t, Commit));
    assert s1 + [Turn(t, Commit)] == schedule + Writes(t);
    hide Interleave, Execute;
    InsertAndCommit(limits, quota, Interleave(limits, false, quota, schedule), t, slot);
  }

  lemma InsertAndCommit(limits: map<SimId, nat>, quota: bool, w: World, t: TxnId, slot: Slot)
    requires t in w.txns && w.txns[t] == Txn(Dispatching, Counted(slot), {}, {}, {}, {})
    requires slot !in w.rows && !RowBusy(w, t, slot)
    ensures var written := Execute(limits, false, quota, w, t, InsertClaim);
            var after := Execute(limits, false, quota, written, t, Commit);
            after.rows == w.rows[slot := 0] && after.recreated == w.recreated && after.txns == w.txns - {t}
  {
    hide RowBusy, On;
    var txn := Txn(Dispatching, Idle, {slot}, {}, {}, {});
    assert {} + {slot} == {slot};
    assert Execute(limits, false, quota, w, t, InsertClaim) == Put(w, t, txn);
    AddedRow(w.rows, slot, txn);
    assert (w.txns[t := txn]) - {t} == w.txns - {t};
  }

  lemma AddedRow(rows: Ledger, slot: Slot, txn: Txn)
    requires slot !in rows && txn == Txn(Dispatching, Idle, {slot}, {}, {}, {})
    ensures Raised(rows, txn) == rows[slot := 0]
  {
    assert (rows.Keys - txn.deleted) + txn.inserted == rows[slot := 0].Keys;
  }

  /** Both have looked before either writes. */
  lemma BothLook(quota: bool)
    ensures var w := Interleave(map[7 := 1], false, quota, [] + Looks(0, Slot(7, 0, "a")) + Looks(1, Slot(7, 0, "b")));
            w == NO_ROWS.(txns := map[0 := Txn(Dispatching, Counted(Slot(7, 0, "a")), {}, {}, {}, {}),
                                      1 := Txn(Dispatching, Counted(Slot(7, 0, "b")), {}, {}, {}, {})])
  {
    var limits: map<SimId, nat> := map[7 := 1];
    assert Interleave(limits, false, quota, []) == NO_ROWS;
    hide Interleave, Execute;
    assert On(NO_ROWS.rows.Keys, 7, 0) == {};
    LooksFindRoom(limits, quota, [], 0, Slot(7, 0, "a"));
    LooksFindRoom(limits, quota, [] + Looks(0, Slot(7, 0, "a")), 1, Slot(7, 0, "b"));
  }

  lemma RaceTakesBoth(quota: bool)
    ensures var w := Interleave(map[7 := 1], false, quota, RACE);
            w.rows.Keys == {Slot(7, 0, "a"), Slot(7, 0, "b")} && w.recreated == {}
  {
    var limits: map<SimId, nat> := map[7 := 1];
    var a, b := Slot(7, 0, "a"), Slot(7, 0, "b");
    hide Interleave, Execute, Looks, Writes;
    BothLook(quota);
    WritesTakeSlot(limits, quota, [] + Looks(0, a) + Looks(1, b), 0, a);
    WritesTakeSlot(limits, quota, [] + Looks(0, a) + Looks(1, b) + Writes(0), 1, b);
    assert RACE == [] + Looks(0, a) + Looks(1, b) + Writes(0) + Writes(1);
  }

  lemma RaceBreaksCap(quota: bool)
    ensures !CapHolds(map[7 := 1], Interleave(map[7 := 1], false, quota, RACE))
  {
    hide Interleave;
    var w := Interleave(map[7 := 1], false, quota, RACE);
    RaceTakesBoth(quota);
    assert On(w.rows.Keys - w.recreated, 7, 0) == {Slot(7, 0, "a"), Slot(7, 0, "b")};
  }

  // ---- with only one of them --------------------------------------------------------------------

  const FIRST := Slot(7, 0, "a")
  const OTHER := Slot(7, 0, "b")

  /** A worker counts, and before it inserts, a report re-creates a row on the same SIM. */
  const OVERTAKEN: seq<Turn> := Looks(0, FIRST) + Recreates(1, OTHER)

  function Recreates(t: TxnId, slot: Slot): seq<Turn> {
    [Turn(t, Begin(Reporting)), Turn(t, QuotaUpdate(slot)), Turn(t, UpsertSent), Turn(t, Commit)]
  }

  function Counting(reserve: bool): World {
    Looking(reserve, Counted(FIRST))
  }

  function Looking(reserve: bool, progress: Progress): World {
    World(map[], {}, if reserve then map[7 := 0] else map[], map[0 := Txn(Dispatching, progress, {}, {}, {}, {})])
  }

  lemma LookingStarts(reserve: bool, quota: bool)
    ensures var limits: map<SimId, nat> := map[7 := 1];
            var begun := Execute(limits, reserve, quota, NO_ROWS, 0, Begin(Dispatching));
            Execute(limits, reserve, quota, begun, 0, Reserve(FIRST)) == Looking(reserve, Reserved(FIRST))
  {
  }

  lemma LookingEnds(reserve: bool, quota: bool)
    ensures var limits: map<SimId, nat> := map[7 := 1];
            var looked := Execute(limits, reserve, quota, Looking(reserve, Reserved(FIRST)), 0, SelectHeld);
            Execute(limits, reserve, quota, looked, 0, CountUsed) == Counting(reserve)
  {
    assert On({}, 7, 0) == {};
  }

  lemma LookingFromScratch(reserve: bool, quota: bool)
    ensures var limits: map<SimId, nat> := map[7 := 1];
            var begun := Execute(limits, reserve, quota, NO_ROWS, 0, Begin(Dispatching));
            var reserved := Execute(limits, reserve, quota, begun, 0, Reserve(FIRST));
            var looked := Execute(limits, reserve, quota, reserved, 0, SelectHeld);
            Execute(limits, reserve, quota, looked, 0, CountUsed) == Counting(reserve)
  {
    hide Execute, Looking, Counting;
    LookingStarts(reserve, quota);
    LookingEnds(reserve, quota);
  }

  lemma WorkerCounts(reserve: bool, quota: bool)
    ensures Interleave(map[7 := 1], reserve, quota, Looks(0, FIRST)) == Counting(reserve)
  {
    assert [] + Looks(0, FIRST) == Looks(0, FIRST);
    assert Interleave(map[7 := 1], reserve, quota, []) == NO_ROWS;
    hide Execute, Interleave;
    FourMore(map[7 := 1], reserve, quota, [], 0, Begin(Dispatching), Reserve(FIRST), SelectHeld, CountUsed);
    LookingFromScratch(reserve, quota);
  }

  /** A report has taken the SIM's quota: with both locks it would have had to wait. */
  function QuotaCounted(reserve: bool, quota: bool): World
    requires !reserve || !quota
  {
    var w := Counting(reserve);
    w.(locks := if quota then map[7 := 1] else w.locks,
       txns := w.txns[1 := Txn(Reporting, QuotaTaken(OTHER), {}, {}, {}, {})])
  }

  lemma ReportStarts(reserve: bool, quota: bool)
    requires !reserve || !quota
    ensures var limits: map<SimId, nat> := map[7 := 1];
            var begun := Execute(limits, reserve, quota, Counting(reserve), 1, Begin(Reporting));
            Execute(limits, reserve, quota, begun, 1, QuotaUpdate(OTHER)) == QuotaCounted(reserve, quota)
  {
  }

  lemma ReportEnds(reserve: bool, quota: bool)
    requires !reserve || !quota
    ensures var limits: map<SimId, nat> := map[7 := 1];
            var sent := Execute(limits, reserve, quota, QuotaCounted(reserve, quota), 1, UpsertSent);
            var after := Execute(limits, reserve, quota, sent, 1, Commit);
            OTHER in after.rows && 0 in after.txns && after.txns[0] == Counting(reserve).txns[0]
  {
  }

  lemma ReportRecreates(reserve: bool, quota: bool)
    requires !reserve || !quota
    ensures var limits: map<SimId, nat> := map[7 := 1];
            var begun := Execute(limits, reserve, quota, Counting(reserve), 1, Begin(Reporting));
            var taken := Execute(limits, reserve, quota, begun, 1, QuotaUpdate(OTHER));
            var sent := Execute(limits, reserve, quota, taken, 1, UpsertSent);
            var after := Execute(limits, reserve, quota, sent, 1, Commit);
            OTHER in after.rows && 0 in after.txns && after.txns[0] == Counting(reserve).txns[0]
  {
    ReportStarts(reserve, quota);
    ReportEnds(reserve, quota);
    hide Execute, QuotaCounted;
  }

  lemma OvertakenCountIsStale(reserve: bool, quota: bool)
    requires !reserve || !quota
    ensures !CountExact(map[7 := 1], Interleave(map[7 := 1], reserve, quota, OVERTAKEN))
  {
    var limits: map<SimId, nat> := map[7 := 1];
    hide Interleave, Execute;
    WorkerCounts(reserve, quota);
    ReportRecreates(reserve, quota);
    FourMore(limits, reserve, quota, Looks(0, FIRST), 1, Begin(Reporting), QuotaUpdate(OTHER), UpsertSent, Commit);
    var w := Interleave(limits, reserve, quota, OVERTAKEN);
    assert OTHER in On(w.rows.Keys + w.txns[0].inserted, 7, 0);
    assert !StillHasRoom(limits, w, 0);
  }

  /** What the second lock adds: counts that are still true when the slot is taken. That takes
      both locks, and both are enough. */
  lemma ExactCountsNeedBothLocks(reserveLocks: bool, quotaLocks: bool)
    ensures (forall limits, schedule :: CountExact(limits, Interleave(limits, reserveLocks, quotaLocks, schedule)))
       <==> reserveLocks && quotaLocks
  {
    if reserveLocks && quotaLocks {
      forall limits, schedule ensures CountExact(limits, Interleave(limits, true, true, schedule)) {
        LockedCountsStayExact(limits, schedule);
      }
    } else {
      OvertakenCountIsStale(reserveLocks, quotaLocks);
    }
  }

  // ---- rows -------------------------------------------------------------------------------------------

  function Written(txn: Txn): set<Slot> {
    txn.inserted + txn.bumped + txn.deleted
  }

  ghost predicate OneWriterPerRow(w: World) {
    forall t, o :: t in w.txns && o in w.txns && t != o ==> Written(w.txns[t]) !! Written(w.txns[o])
  }

  /** What a statement adds to a transaction's writes no other transaction has written. */
  lemma WritesAreFree(limits: map<SimId, nat>, reserve: bool, quota: bool, w: World, t: TxnId, statement: Statement,
                      slot: Slot)
    ensures var after := Execute(limits, reserve, quota, w, t, statement);
            && (t in w.txns && t in after.txns && slot in Written(after.txns[t]) ==>
                  slot in Written(w.txns[t]) || forall o :: o in w.txns && o != t ==> slot !in Written(w.txns[o]))
            && (t !in w.txns && t in after.txns ==> Written(after.txns[t]) == {})
            && (forall o :: o in after.txns && o != t ==> o in w.txns && after.txns[o] == w.txns[o])
  {
    hide On, Raised, LockFree, Locked, Unlocked;
  }

  lemma StatementKeepsOneWriter(limits: map<SimId, nat>, reserve: bool, quota: bool, w: World, t: TxnId,
                                statement: Statement)
    requires OneWriterPerRow(w)
    ensures OneWriterPerRow(Execute(limits, reserve, quota, w, t, statement))
  {
    hide Execute, Written;
    var after := Execute(limits, reserve, quota, w, t, statement);
    forall a, b, slot | a in after.txns && b in after.txns && a != b && slot in Written(after.txns[a])
      ensures slot !in Written(after.txns[b])
    {
      WritesAreFree(limits, reserve, quota, w, t, statement, slot);
    }
  }

  /** A row that a transaction has written is no other's to write until it ends. */
  lemma {:induction false} RowsHaveOneWriter(limits: map<SimId, nat>, reserve: bool, quota: bool, schedule: seq<Turn>)
    ensures OneWriterPerRow(Interleave(limits, reserve, quota, schedule))
    decreases |schedule|
  {
    hide Execute, Written;
    if schedule != [] {
      var last := schedule[|schedule| - 1];
      var w := Interleave(limits, reserve, quota, schedule[..|schedule| - 1]);
      RowsHaveOneWriter(limits, reserve, quota, schedule[..|schedule| - 1]);
      StatementKeepsOneWriter(limits, reserve, quota, w, last.t, last.statement);
    }
  }

  // ---- one transaction at a time ------------------------------------------------------------------

  /** Nothing is under way. */
  predicate IsQuiet(w: World) {
    w.locks == map[] && w.txns == map[]
  }

  /** The limit of a SIM, as a claim is given it. */
  function LimitOf(limits: map<SimId, nat>, sim: SimId): Option<nat> {
    if sim in limits then Some(limits[sim]) else None
  }

  function LookedUp(w: World, t: TxnId, slot: Slot, progress: Progress): World {
    w.(locks := map[slot.sim := t], txns := map[t := Txn(Dispatching, progress, {}, {}, {}, {})])
  }

  lemma ClaimIsLookedUp(limits: map<SimId, nat>, w: World, t: TxnId, slot: Slot)
    requires IsQuiet(w)
    ensures var begun := Execute(limits, true, true, w, t, Begin(Dispatching));
            var reserved := Execute(limits, true, true, begun, t, Reserve(slot));
            Execute(limits, true, true, reserved, t, SelectHeld)
              == LookedUp(w, t, slot, if slot in w.rows then Idle else Absent(slot))
  {
    hide On, RowBusy, Raised;
  }

  lemma ClaimIsCounted(limits: map<SimId, nat>, w: World, t: TxnId, slot: Slot)
    requires IsQuiet(w)
    ensures Execute(limits, true, true, LookedUp(w, t, slot, Idle), t, CountUsed) == LookedUp(w, t, slot, Idle)
    ensures Execute(limits, true, true, LookedUp(w, t, slot, Absent(slot)), t, CountUsed)
         == LookedUp(w, t, slot, if HasRoom(|UsedSlots(w.rows, slot.sim, slot.day)|, LimitOf(limits, slot.sim))
                                 then Counted(slot) else Idle)
  {
    hide RowBusy, Raised;
    assert On(Visible(LookedUp(w, t, slot, Absent(slot)), t), slot.sim, slot.day)
        == UsedSlots(w.rows, slot.sim, slot.day);
  }

  /** What a lone transaction leaves when it commits. */
  lemma AloneCommits(limits: map<SimId, nat>, w: World, t: TxnId, txn: Txn)
    requires IsQuiet(w.(locks := Unlocked(w.locks, t), txns := w.txns - {t})) && t in w.txns && w.txns[t] == txn
    ensures Execute(limits, true, true, w, t, Commit)
         == World(Raised(w.rows, txn), w.recreated + txn.recreated, map[], map[])
  {
    hide On, RowBusy;
  }

  lemma RaisedRows(rows: Ledger, slot: Slot)
    ensures Raised(rows, Txn(Dispatching, Idle, {}, {}, {}, {})) == rows
    ensures Raised(rows, Txn(Reporting, Idle, {}, {}, {}, {})) == rows
    ensures slot !in rows ==> Raised(rows, Txn(Dispatching, Idle, {slot}, {}, {}, {})) == rows[slot := 0]
    ensures slot !in rows ==> Raised(rows, Txn(Reporting, Idle, {slot}, {slot}, {}, {})) == rows[slot := 1]
    ensures slot in rows ==> Raised(rows, Txn(Reporting, Idle, {}, {}, {slot}, {})) == rows[slot := rows[slot] + 1]
    ensures Raised(rows, Txn(Reporting, Idle, {}, {}, {}, {slot})) == rows - {slot}
  {
    assert rows.Keys + {slot} == rows[slot := 0].Keys;
  }

  lemma ClaimIsWritten(limits: map<SimId, nat>, w: World, t: TxnId, slot: Slot, progress: Progress)
    requires IsQuiet(w) && (progress.Idle? || (progress == Counted(slot) && slot !in w.rows))
    ensures var inserted := Execute(limits, true, true, LookedUp(w, t, slot, progress), t, InsertClaim);
            Execute(limits, true, true, inserted, t, Commit)
              == w.(rows := if progress.Idle? then w.rows else w.rows[slot := 0])
  {
    hide On, Raised;
    var txn := Txn(Dispatching, Idle, if progress.Idle? then {} else {slot}, {}, {}, {});
    var inserted := w.(locks := map[slot.sim := t], txns := map[t := txn]);
    assert {} + {slot} == {slot};
    assert Execute(limits, true, true, LookedUp(w, t, slot, progress), t, InsertClaim) == inserted;
    hide Execute;
    AloneCommits(limits, inserted, t, txn);
    RaisedRows(w.rows, slot);
    assert w.recreated + {} == w.recreated;
  }

  /** With nothing else under way, the statements of a dispatch on one SIM claim the slot as the
      protocol's claim does. */
  lemma AloneIsClaim(limits: map<SimId, nat>, w: World, t: TxnId, slot: Slot)
    requires IsQuiet(w)
    ensures var begun := Execute(limits, true, true, w, t, Begin(Dispatching));
            var reserved := Execute(limits, true, true, begun, t, Reserve(slot));
            var looked := Execute(limits, true, true, reserved, t, SelectHeld);
            var counted := Execute(limits, true, true, looked, t, CountUsed);
            var inserted := Execute(limits, true, true, counted, t, InsertClaim);
            Execute(limits, true, true, inserted, t, Commit)
              == w.(rows := Claim(w.rows, slot, LimitOf(limits, slot.sim)).1)
  {
    hide Execute, UsedSlots, HasRoom, LookedUp;
    ClaimIsLookedUp(limits, w, t, slot);
    ClaimIsCounted(limits, w, t, slot);
    ClaimIsWritten(limits, w, t, slot, Idle);
    if slot !in w.rows { ClaimIsWritten(limits, w, t, slot, Counted(slot)); }
  }

  /** And those of a report count the send as the protocol does. */
  lemma AloneIsRecordSent(limits: map<SimId, nat>, w: World, t: TxnId, slot: Slot)
    requires IsQuiet(w)
    ensures var begun := Execute(limits, true, true, w, t, Begin(Reporting));
            var taken := Execute(limits, true, true, begun, t, QuotaUpdate(slot));
            var sent := Execute(limits, true, true, taken, t, UpsertSent);
            Execute(limits, true, true, sent, t, Commit)
              == w.(rows := RecordSent(w.rows, slot),
                    recreated := if slot in w.rows then w.recreated else w.recreated + {slot})
  {
    hide On, Raised;
    var begun := Execute(limits, true, true, w, t, Begin(Reporting));
    var taken := Execute(limits, true, true, begun, t, QuotaUpdate(slot));
    assert taken == w.(locks := map[slot.sim := t], txns := map[t := Txn(Reporting, QuotaTaken(slot), {}, {}, {}, {})]);
    var txn := if slot in w.rows then Txn(Reporting, Idle, {}, {}, {slot}, {})
               else Txn(Reporting, Idle, {slot}, {slot}, {}, {});
    var sent := taken.(txns := map[t := txn]);
    assert {} + {slot} == {slot};
    assert Execute(limits, true, true, taken, t, UpsertSent) == sent;
    hide Execute;
    AloneCommits(limits, sent, t, txn);
    RaisedRows(w.rows, slot);
  }

  /** A hand-back removes the row exactly when nothing was sent on it. Whether another message needs
      the slot is not part of this machine. */
  lemma AloneIsRelease(limits: map<SimId, nat>, w: World, t: TxnId, slot: Slot)
    requires IsQuiet(w)
    ensures var begun := Execute(limits, true, true, w, t, Begin(Reporting));
            var deleted := Execute(limits, true, true, begun, t, DeleteUnused(slot));
            Execute(limits, true, true, deleted, t, Commit)
              == w.(rows := if slot in w.rows && w.rows[slot] == 0 then w.rows - {slot} else w.rows)
  {
    hide On, Raised;
    var drops := slot in w.rows && w.rows[slot] == 0;
    var txn := Txn(Reporting, Idle, {}, {}, {}, if drops then {slot} else {});
    var begun := Execute(limits, true, true, w, t, Begin(Reporting));
    var deleted := w.(txns := map[t := txn]);
    assert {} + {slot} == {slot};
    assert Execute(limits, true, true, begun, t, DeleteUnused(slot)) == deleted;
    hide Execute;
    AloneCommits(limits, deleted, t, txn);
    RaisedRows(w.rows, slot);
    assert w.recreated + {} == w.recreated;
  }
}
