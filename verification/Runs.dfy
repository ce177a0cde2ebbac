/** What one step may do to the request rows and the trail, and what runs inherit from it. */
module Runs {
  import opened Base
  import opened Domain
  import opened Tables
  import opened Ledger
  import opened Protocol
  import opened Invariant
  import opened Steps

  /** The edges of the lifecycle that the service takes. */
  predicate LegalEdge(a: RequestState, b: RequestState) {
    match a
    case Submitted => b.Approved? || b.Rejected? || b.Cancelled?
    case Approved => b.Allocating?
    case Allocating => b.Leased? || b.Errored?
    case Leased => b.ReturnRequested?
    case ReturnRequested => b.Cleaning?
    case Cleaning => b.Returned? || b.Errored?
    case _ => false
  }

  /** A row after a step: the same, or one legal transition further with the contract untouched. */
  predicate OneTransition(r: Request, r': Request) {
    r' == r
    || (&& SameContract(r, r') && r'.version == r.version + 1 && LegalEdge(r.state, r'.state)
        && (r'.nodes == r.nodes || (r.state.Submitted? && r'.state.Approved?)))
  }

  /** The step writes no row, or writes one row (new or known) with the event `e` that says so. */
  ghost predicate Written(db: Db, db': Db, e: AuditEvent) {
    && db'.audit == db.audit + [e]
    && e.requestId in db'.requests && e.after == Public(db'.requests[e.requestId])
    && db'.requests == db.requests[e.requestId := db'.requests[e.requestId]]
    && if e.requestId in db.requests then
         && SameContract(db.requests[e.requestId], db'.requests[e.requestId])
         && e.before == Some(Public(db.requests[e.requestId]))
         && (e.action.OperationQueued? ==> db'.requests == db.requests)
         && !e.action.Created?
       else
         e.before.None? && e.action.Created?
  }

  ghost predicate Footprint(db: Db, db': Db) {
    if |db'.audit| == 0 || db'.audit == db.audit then db'.requests == db.requests && db'.audit == db.audit
    else Written(db, db', db'.audit[|db'.audit| - 1])
  }

  lemma WrittenIsFootprint(db: Db, db': Db, e: AuditEvent)
    requires Written(db, db', e)
    ensures Footprint(db, db')
  {
  }

  lemma SaveStepFootprint(w: World, k: nat, plan: Plan)
    requires Rows(w.db.requests) && Copies(w.db.requests, w.tasks) && k in w.tasks && w.tasks[k].RequestTask?
    requires plan.made.Ok? ==> SameContract(w.tasks[k].item, plan.made.value)
                               && !plan.action.Created? && !plan.action.OperationQueued?
    ensures Footprint(w.db, SaveStep(w, k, w.tasks[k].actor, w.tasks[k].item, plan).db)
  {
    var t := w.tasks[k];
    assert CopyFits(w.db.requests, t);
    if plan.made.Ok? && AtVersion(w.db, plan.made.value.id, t.item.version) {
      WrittenIsFootprint(w.db, SaveStep(w, k, t.actor, t.item, plan).db,
                  Event(Some(w.db.requests[t.item.id]), plan.made.value, t.actor.userId, t.actor.projectId,
                    plan.action));
    }
  }

  lemma ApproveStepFootprint(w: World, k: nat, candidates: seq<OfferCandidate>, now: int)
    requires Rows(w.db.requests) && Copies(w.db.requests, w.tasks) && k in w.tasks && w.tasks[k].RequestTask?
    ensures Footprint(w.db, ApproveStep(w, k, w.tasks[k].actor, w.tasks[k].item, candidates, now).db)
  {
    var t := w.tasks[k];
    assert CopyFits(w.db.requests, t);
    var made := t.item.Approve(t.actor, w.dcn, candidates, now);
    if made.Ok? && CanReserve(w.db, made.value, t.item.version) {
      WrittenIsFootprint(w.db, ApproveStep(w, k, t.actor, t.item, candidates, now).db,
                  Event(Some(w.db.requests[t.item.id]), made.value, t.actor.userId, t.actor.projectId, Action.Approve));
    }
  }

  lemma RecordStepFootprint(w: World, k: nat, op: Operation)
    requires Rows(w.db.requests) && Copies(w.db.requests, w.tasks) && k in w.tasks && w.tasks[k].RequestTask?
    ensures Footprint(w.db, RecordStep(w, k, w.tasks[k].actor, w.tasks[k].item, op).db)
  {
    var t := w.tasks[k];
    assert CopyFits(w.db.requests, t);
    if AtVersion(w.db, t.item.id, t.item.version) {
      WrittenIsFootprint(w.db, RecordStep(w, k, t.actor, t.item, op).db,
                         Event(Some(t.item), t.item, t.actor.userId, t.actor.projectId,
                               OperationQueued(op.command.Kind(), op.node)));
    }
  }

  lemma SavingPlaceFootprint(w: World, k: nat)
    requires Rows(w.db.requests) && Copies(w.db.requests, w.tasks) && k in w.tasks && w.tasks[k].RequestTask?
    requires PlannedSave(w.dcn, w.tasks[k].actor, w.tasks[k].item, w.tasks[k].place).Some?
    ensures var t := w.tasks[k];
            Footprint(w.db, SaveStep(w, k, t.actor, t.item, PlannedSave(w.dcn, t.actor, t.item, t.place).value).db)
  {
    var t := w.tasks[k];
    PlanKeepsContract(w.dcn, t.actor, t.item, t.place);
    SaveStepFootprint(w, k, PlannedSave(w.dcn, t.actor, t.item, t.place).value);
  }

  lemma InsertStepFootprint(w: World, k: nat, op: Operation, key: Option<string>)
    requires k in w.tasks && w.tasks[k].RequestTask?
    ensures Footprint(w.db, InsertStep(w, k, w.tasks[k].actor, w.tasks[k].item, op, key).db)
  {
  }

  lemma OtherStepFootprint(w: World, k: nat, input: Input)
    requires Rows(w.db.requests) && Copies(w.db.requests, w.tasks) && k in w.tasks && w.tasks[k].RequestTask?
    ensures var t := w.tasks[k]; Footprint(w.db, OtherStep(w, k, t.actor, t.item, t.place, input).db)
  {
    match w.tasks[k].place
    case ToApprove => if input.Offers? { ApproveStepFootprint(w, k, input.candidates, input.now); }
    case ToInsert(op, key) => InsertStepFootprint(w, k, op, key);
    case ToRecord(op) => RecordStepFootprint(w, k, op);
    case _ =>
  }

  lemma AdvanceFootprint(w: World, k: nat, input: Input)
    requires Rows(w.db.requests) && Copies(w.db.requests, w.tasks) && k in w.tasks && w.tasks[k].RequestTask?
    ensures var t := w.tasks[k]; Footprint(w.db, Advance(w, k, t.actor, t.item, t.place, input).db)
  {
    var t := w.tasks[k];
    if PlannedSave(w.dcn, t.actor, t.item, t.place).Some? { SavingPlaceFootprint(w, k); }
    OtherStepFootprint(w, k, input);
  }

  lemma CreateStepFootprint(w: World, r: Request, key: Option<string>)
    ensures Footprint(w.db, CreateStep(w, r, key).db)
  {
    if !RequestKeyBound(w.db, r.projectId, key) && CanCreate(w.db, r) {
      WrittenIsFootprint(w.db, Create(w.db, r, key), Event(None, r, r.userId, r.projectId, Created));
    }
  }

  lemma ApplyFootprint(w: World, s: Step)
    requires Rows(w.db.requests) && Copies(w.db.requests, w.tasks)
    ensures Footprint(w.db, Apply(w, s).db)
  {
    if s.CreateRequest? {
      CreateStepFootprint(w, NewRequest(s.actor, s.id, s.profile, s.quantity, s.purpose, s.until, s.rack), s.key);
    } else if s.Continue? && s.k in w.tasks && w.tasks[s.k].RequestTask? {
      AdvanceFootprint(w, s.k, s.input);
    }
  }
}
