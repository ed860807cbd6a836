/** Handing devices to tenants and taking them back, with the messages that then wait in vain. */
module GatewayAssignment {
  import opened SmsTypes
  import opened MessageJob
  import opened DeliveryState
  import opened DeliveryProtocol
  import opened Database

  method FailStrandedRows(db: Tables, tenant: TenantId, g: GatewayId)
    modifies db`jobs
    ensures db.jobs == FailStrandedMessages(old(db.jobs), tenant, g)
  {
    ghost var was := db.jobs;
    var stranded := set m | m in db.jobs && Stranded(db.jobs[m].message, tenant, g);
    var left := stranded;
    while left != {}
      invariant left <= stranded && db.jobs.Keys == was.Keys
      invariant forall m :: m in was ==> db.jobs[m] == if m in stranded - left then FailStranded(was[m]) else was[m]
      decreases left
    {
      var m :| m in left;
      db.SaveMessage(m, db.jobs[m].message.(status := Failed, error := Some(DEVICE_RELEASED), hasBody := false));
      db.PublishEvent(m, SmsFailed);
      left := left - {m};
    }
  }

  /** The assignment is written first, then the messages the old tenant loses are failed. */
  method AssignGatewayTo(db: Tables, g: GatewayId, assignment: Assignment)
    modifies db`jobs, db`assignments
    ensures db.State() == AssignDevice(old(db.State()), g, assignment)
  {
    var previous := AssignmentOf(db.State(), g);
    db.assignments := db.assignments[g := assignment];
    if previous.Owned? && previous != assignment {
      FailStrandedRows(db, previous.tenant, g);
    }
  }
}
