/** Case by case: every step of `Protocol.Apply` keeps the invariant, so every run does. */
module Steps {
  import opened Base
  import opened Domain
  import opened Tables
  import opened Ironic
  import opened Ledger
  import opened Protocol
  import opened Invariant
  import opened Preservation

  // ---- saves of a task ----

  /** What has to be true of `r` for task k to save it over the row its copy still equals. */
  ghost predicate GoodSave(w: World, k: nat, r: Request, action: Action, release: bool, next: Option<Place>)
    requires k in w.tasks && w.tasks[k].RequestTask?
  {
    var t := w.tasks[k];
    && LawfulSave(t.item, r, t.actor.userId, t.actor.projectId, action, release, w.dcn)
    && FleetAllows(w.fleet, t.item, r, release)
    && (Carries(t.place).Some? || t.item.state.Submitted? || t.item.state.Leased?)
    && (next.Some? ==>
          var t' := RequestTask(t.actor, r, next.value);
          Carries(next.value) == Some(r.state) && Authorised(t', w.dcn) && Progress(w.fleet, t'))
  }

  lemma SaveStepKeepsInv(w: World, k: nat, plan: Plan)
    requires Inv(w) && k in w.tasks && w.tasks[k].RequestTask?
    requires plan.made.Ok? && AtVersion(w.db, w.tasks[k].item.id, w.tasks[k].item.version) ==>
               GoodSave(w, k, plan.made.value, plan.action, plan.release, plan.next)
    requires plan.made.Ok? ==> plan.made.value.id == w.tasks[k].item.id
    ensures Inv(SaveStep(w, k, w.tasks[k].actor, w.tasks[k].item, plan))
  {
    var item := w.tasks[k].item;
    if plan.made.Err? || !AtVersion(w.db, item.id, item.version) {
      EndKeepsInv(w, k);
    } else {
      assert CopyFits(w.db.requests, w.tasks[k]);
      SaveKeepsInv(w, SaveStep(w, k, w.tasks[k].actor, item, plan), k, plan.made.value, plan.action, plan.release);
    }
  }

  /** The row a copy equals is well formed, so a copy that is still current is, too. */
  lemma CurrentCopy(w: World, k: nat)
    requires Inv(w) && k in w.tasks && w.tasks[k].RequestTask?
    requires AtVersion(w.db, w.tasks[k].item.id, w.tasks[k].item.version) || Carries(w.tasks[k].place).Some?
    ensures w.tasks[k].item.id in w.db.requests && w.tasks[k].item == w.db.requests[w.tasks[k].item.id]
    ensures WellFormed(w.tasks[k].item)
    ensures Carries(w.tasks[k].place).Some? ==> w.tasks[k].item.state == Carries(w.tasks[k].place).value
    ensures Authorised(w.tasks[k], w.dcn) && Progress(w.fleet, w.tasks[k])
  {
    assert CopyFits(w.db.requests, w.tasks[k]);
  }

  // Each of these looks at one domain transition only: it is a good save of the task's copy.

  ghost predicate At(w: World, k: nat, place: Place) {
    k in w.tasks && w.tasks[k].RequestTask? && w.tasks[k].place == place
    && WellFormed(w.tasks[k].item) && Authorised(w.tasks[k], w.dcn) && Progress(w.fleet, w.tasks[k])
    && (Carries(place).Some? ==> w.tasks[k].item.state == Carries(place).value)
  }

  lemma DecisionIsGood(w: World, k: nat, text: string)
    requires k in w.tasks && w.tasks[k].RequestTask? && WellFormed(w.tasks[k].item)
    ensures var t := w.tasks[k];
            var rejected, cancelled := t.item.Reject(t.actor, w.dcn, text), t.item.Cancel(t.actor);
            && (rejected.Ok? ==> GoodSave(w, k, rejected.value, Action.Reject, false, None))
            && (cancelled.Ok? ==> GoodSave(w, k, cancelled.value, Action.Cancel, false, None))
  {
  }

  lemma ReturnRequestIsGood(w: World, k: nat)
    requires k in w.tasks && w.tasks[k].RequestTask? && WellFormed(w.tasks[k].item)
    ensures var made := w.tasks[k].item.RequestReturn(w.tasks[k].actor, w.dcn);
            made.Ok? ==> GoodSave(w, k, made.value, AskedToReturn, false, Some(ToStartCleaning))
  {
  }

  lemma StartIsGood(w: World, k: nat)
    ensures At(w, k, ToStartAllocation) ==>
              var made := w.tasks[k].item.Transition(Approved, Allocating);
              made.Ok? ==> GoodSave(w, k, made.value, AllocationStarted, false, Some(ToAssign(0)))
    ensures At(w, k, ToStartCleaning) ==>
              var made := w.tasks[k].item.Transition(ReturnRequested, Cleaning);
              made.Ok? ==> GoodSave(w, k, made.value, CleaningStarted, false, Some(ToCompleteReturn))
  {
  }

  lemma FailureIsGood(w: World, k: nat, text: string)
    ensures At(w, k, ToRecordAllocationFailure(text)) ==>
              var made := w.tasks[k].item.MarkError(text);
              made.Ok? ==> GoodSave(w, k, made.value, AllocationFailed, false, None)
    ensures At(w, k, ToRecordCleaningFailure(text)) ==>
              var made := w.tasks[k].item.MarkError(text);
              made.Ok? ==> GoodSave(w, k, made.value, Action.CleaningFailed, false, None)
  {
  }

  lemma LeasedIsGood(w: World, k: nat, done: nat)
    requires At(w, k, ToAssign(done)) && done >= |w.tasks[k].item.nodes|
    ensures var made := w.tasks[k].item.Transition(Allocating, Leased);
            made.Ok? ==> GoodSave(w, k, made.value, AllocationCompleted, false, None)
  {
  }

  lemma ReturnedIsGood(w: World, k: nat, cleared: nat)
    requires At(w, k, ToClear(cleared)) && cleared >= |w.tasks[k].item.nodes|
    ensures var made := w.tasks[k].item.Transition(Cleaning, Returned);
            made.Ok? ==> GoodSave(w, k, made.value, CleaningCompleted, true, None)
  {
  }

  /** Whatever save a place plans is a good save of a current copy. */
  lemma PlanIsGood(w: World, k: nat)
    requires k in w.tasks && w.tasks[k].RequestTask?
    requires At(w, k, w.tasks[k].place)
    requires PlannedSave(w.dcn, w.tasks[k].actor, w.tasks[k].item, w.tasks[k].place).Some?
    ensures var plan := PlannedSave(w.dcn, w.tasks[k].actor, w.tasks[k].item, w.tasks[k].place).value;
            plan.made.Ok? ==> GoodSave(w, k, plan.made.value, plan.action, plan.release, plan.next)
  {
    match w.tasks[k].place
    case ToReject(text) => DecisionIsGood(w, k, text);
    case ToCancel => DecisionIsGood(w, k, "");
    case ToRequestReturn => ReturnRequestIsGood(w, k);
    case ToStartAllocation | ToStartCleaning => StartIsGood(w, k);
    case ToRecordAllocationFailure(text) => FailureIsGood(w, k, text);
    case ToRecordCleaningFailure(text) => FailureIsGood(w, k, text);
    case ToAssign(done) => LeasedIsGood(w, k, done);
    case ToClear(cleared) => ReturnedIsGood(w, k, cleared);
    case _ =>
  }

  /** A plan is for the task's own request and keeps its contract. */
  lemma PlanKeepsContract(dcn: string, actor: Actor, item: Request, place: Place)
    ensures var plan := PlannedSave(dcn, actor, item, place);
            plan.Some? && plan.value.made.Ok? ==>
              && SameContract(item, plan.value.made.value)
              && (plan.value.made.value.state.ReturnRequested? ==> place.ToRequestReturn?)
              && !plan.value.action.Created? && !plan.value.action.OperationQueued?
  {
  }

  lemma SavingPlaceKeepsInv(w: World, k: nat)
    requires Inv(w) && k in w.tasks && w.tasks[k].RequestTask?
    requires PlannedSave(w.dcn, w.tasks[k].actor, w.tasks[k].item, w.tasks[k].place).Some?
    ensures var t := w.tasks[k];
            Inv(SaveStep(w, k, t.actor, t.item, PlannedSave(w.dcn, t.actor, t.item, t.place).value))
  {
    var t := w.tasks[k];
    var plan := PlannedSave(w.dcn, t.actor, t.item, t.place).value;
    PlanKeepsContract(w.dcn, t.actor, t.item, t.place);
    if AtVersion(w.db, t.item.id, t.item.version) {
      CurrentCopy(w, k);
      PlanIsGood(w, k);
    }
    SaveStepKeepsInv(w, k, plan);
  }

  lemma ApproveStepKeepsInv(w: World, k: nat, candidates: seq<OfferCandidate>, now: int)
    requires Inv(w) && k in w.tasks && w.tasks[k].RequestTask?
    requires w.tasks[k].place.ToApprove?
    ensures Inv(ApproveStep(w, k, w.tasks[k].actor, w.tasks[k].item, candidates, now))
  {
    var t := w.tasks[k];
    var made := t.item.Approve(t.actor, w.dcn, candidates, now);
    if made.Err? || !CanReserve(w.db, made.value, t.item.version) {
      EndKeepsInv(w, k);
    } else {
      CurrentCopy(w, k);
      ApproveKeepsInv(w, ApproveStep(w, k, t.actor, t.item, candidates, now), k, made.value);
    }
  }

  // ---- runtime calls of a task ----

  lemma AssignIsCall(w: World, k: nat, done: nat, reply: Reply)
    requires At(w, k, ToAssign(done)) && done < |w.tasks[k].item.nodes|
    ensures var t := w.tasks[k];
            Calls(w, CallStep(w, k, t.actor, t.item, ToAssign(done), reply), k, t.item.nodes[done])
  {
  }

  /** A cleaning touches its own node only, never a lessee, and leaves it clean if it completes. */
  lemma CleaningTouches(f: Fleet, n: string, reply: Reply)
    ensures var outcome := ReturnAndClean(f, n, reply);
            && ChangesOnly(f, outcome.fleet, n)
            && (n in f.nodes ==> outcome.fleet.nodes[n].lessee == f.nodes[n].lessee)
            && (outcome.error.None? ==> n !in outcome.fleet.dirty)
  {
  }

  lemma CleanIsCall(w: World, k: nat, cleaned: nat, reply: Reply)
    requires At(w, k, ToClean(cleaned))
    ensures var t := w.tasks[k];
            Calls(w, CallStep(w, k, t.actor, t.item, ToClean(cleaned), reply), k, t.item.nodes[cleaned])
  {
    var nodes := w.tasks[k].item.nodes;
    CleaningTouches(w.fleet, nodes[cleaned], reply);
    assert forall j | 0 <= j < |nodes| && j != cleaned :: nodes[j] != nodes[cleaned];
  }

  lemma ClearIsCall(w: World, k: nat, cleared: nat, reply: Reply)
    requires At(w, k, ToClear(cleared)) && cleared < |w.tasks[k].item.nodes|
    ensures var t := w.tasks[k];
            Calls(w, CallStep(w, k, t.actor, t.item, ToClear(cleared), reply), k, t.item.nodes[cleared])
  {
    var nodes := w.tasks[k].item.nodes;
    assert forall j | 0 <= j < |nodes| && j != cleared :: nodes[j] != nodes[cleared];
  }

  lemma CallStepKeepsInv(w: World, k: nat, reply: Reply)
    requires Inv(w) && k in w.tasks && w.tasks[k].RequestTask?
    ensures var t := w.tasks[k]; Inv(CallStep(w, k, t.actor, t.item, t.place, reply))
  {
    var t := w.tasks[k];
    if Carries(t.place).Some? { CurrentCopy(w, k); }
    match t.place
    case ToAssign(done) =>
      if done < |t.item.nodes| {
        AssignIsCall(w, k, done, reply);
        CallKeepsInv(w, CallStep(w, k, t.actor, t.item, t.place, reply), k, t.item.nodes[done]);
      }
    case ToClean(cleaned) =>
      if cleaned < |t.item.nodes| {
        CleanIsCall(w, k, cleaned, reply);
        CallKeepsInv(w, CallStep(w, k, t.actor, t.item, t.place, reply), k, t.item.nodes[cleaned]);
      }
    case ToClear(cleared) =>
      if cleared < |t.item.nodes| {
        ClearIsCall(w, k, cleared, reply);
        CallKeepsInv(w, CallStep(w, k, t.actor, t.item, t.place, reply), k, t.item.nodes[cleared]);
      }
    case _ =>
  }

  // ---- the other places ----

  /** The second read of a return gives back the copy the task has. */
  lemma CompleteReturnReads(w: World, k: nat)
    requires Inv(w) && k in w.tasks && w.tasks[k].RequestTask? && w.tasks[k].place.ToCompleteReturn?
    ensures var t := w.tasks[k];
            t.item.id in w.db.requests && w.db.requests[t.item.id] == t.item && t.item.state.Cleaning?
            && Progress(w.fleet, RequestTask(t.actor, t.item, NextClean(t.item, 0)))
  {
    CurrentCopy(w, k);
  }

  lemma CompleteReturnKeepsInv(w: World, k: nat)
    requires Inv(w) && k in w.tasks && w.tasks[k].RequestTask? && w.tasks[k].place.ToCompleteReturn?
    ensures var t := w.tasks[k]; Inv(Go(w, k, t.actor, t.item, NextClean(t.item, 0)))
  {
    CompleteReturnReads(w, k);
    var t := w.tasks[k];
    assert CopyFits(w.db.requests, t) && Authorised(t, w.dcn);
    MoveKeepsInv(w, Go(w, k, t.actor, t.item, NextClean(t.item, 0)), k);
  }

  /** Moving to a place that carries nothing, with the copy the task has. */
  lemma GoKeepsInv(w: World, k: nat, place: Place)
    requires Inv(w) && k in w.tasks && w.tasks[k].RequestTask?
    requires Carries(place).None? && Authorised(w.tasks[k].(place := place), w.dcn)
    ensures Inv(Go(w, k, w.tasks[k].actor, w.tasks[k].item, place))
  {
    assert CopyFits(w.db.requests, w.tasks[k]);
    MoveKeepsInv(w, Go(w, k, w.tasks[k].actor, w.tasks[k].item, place), k);
  }

  ghost predicate OnlyOperationTables(w: World, w': World, k: nat) {
    && w' == w.(db := w'.db, tasks := w'.tasks)
    && w'.db.requests == w.db.requests && w'.db.reservations == w.db.reservations
    && (forall id | id in w.db.operations :: id in w'.db.operations && w'.db.operations[id] == w.db.operations[id])
    && OthersKept(w.tasks, w'.tasks, k)
    && (k in w'.tasks ==> w'.tasks[k].RequestTask? && Carries(w'.tasks[k].place).None?
                          && CopyFits(w.db.requests, w'.tasks[k]) && Authorised(w'.tasks[k], w.dcn))
  }

  lemma NewRowsKeepOperations(w: World, w': World, k: nat)
    requires Operations(w) && OnlyOperationTables(w, w', k)
    ensures Operations(w')
  {
    forall l | l in w'.tasks ensures Processed(w', w'.tasks[l]) {
      if l != k { assert Processed(w, w.tasks[l]); }
    }
  }

  lemma OperationTablesKeepFleet(w: World, w': World, k: nat)
    requires FleetFits(w) && OnlyOperationTables(w, w', k)
    ensures FleetFits(w')
  {
    forall n | Held(w.db, n) ensures Held(w'.db, n) {
    }
  }

  /** A task may go on at a place that carries nothing while only the operation tables and the trail grow. */
  lemma OperationTablesKeepInv(w: World, w': World, k: nat)
    requires Inv(w) && Sound(w'.db, w.dcn) && OnlyOperationTables(w, w', k)
    ensures Inv(w')
  {
    MoveKeepsCopies(w, w', k);
    AuthorisationKept(w.tasks, w'.tasks, k, w.dcn);
    OperationTablesKeepFleet(w, w', k);
    NewRowsKeepOperations(w, w', k);
  }

  lemma SubmissionChangesTables(w: World, k: nat, op: Operation, key: Option<string>)
    requires k in w.tasks && w.tasks[k].RequestTask? && QueuedFor(w.tasks[k], op)
    requires CopyFits(w.db.requests, w.tasks[k]) && CanSubmit(w.db, op)
    ensures var t := w.tasks[k];
            OnlyOperationTables(w, Go(w.(db := Submit(w.db, op, key)), k, t.actor, t.item, ToRecord(op)), k)
  {
  }

  lemma InsertStepKeepsInv(w: World, k: nat, op: Operation, key: Option<string>)
    requires Inv(w) && k in w.tasks && w.tasks[k].RequestTask? && w.tasks[k].place == ToInsert(op, key)
    ensures Inv(InsertStep(w, k, w.tasks[k].actor, w.tasks[k].item, op, key))
  {
    var t := w.tasks[k];
    assert CopyFits(w.db.requests, t) && Authorised(t, w.dcn);
    if !OperationKeyBound(w.db, op, key) && CanSubmit(w.db, op) {
      SubmitKeepsSound(w.db, w.dcn, op, key);
      SubmissionChangesTables(w, k, op, key);
      OperationTablesKeepInv(w, InsertStep(w, k, t.actor, t.item, op, key), k);
    } else {
      EndKeepsInv(w, k);
      GoKeepsInv(w, k, ToRecord(op));
    }
  }

  lemma RecordStepKeepsInv(w: World, k: nat, op: Operation)
    requires Inv(w) && k in w.tasks && w.tasks[k].RequestTask? && w.tasks[k].place == ToRecord(op)
    ensures Inv(RecordStep(w, k, w.tasks[k].actor, w.tasks[k].item, op))
  {
    var t := w.tasks[k];
    if AtVersion(w.db, t.item.id, t.item.version) {
      CurrentCopy(w, k);
      RecordKeepsSound(w.db, w.dcn, t.item.id, t.actor.userId, op.command.Kind(), op.node);
      OperationTablesKeepInv(w, RecordStep(w, k, t.actor, t.item, op), k);
    } else {
      EndKeepsInv(w, k);
    }
  }

  // ---- all places ----

  lemma QueueingKeepsInv(w: World, k: nat, input: Input)
    requires Inv(w) && k in w.tasks && w.tasks[k].RequestTask?
    requires w.tasks[k].place.ToInsert? || w.tasks[k].place.ToRecord?
    ensures var t := w.tasks[k]; Inv(OtherStep(w, k, t.actor, t.item, t.place, input))
  {
    match w.tasks[k].place
    case ToInsert(op, key) => InsertStepKeepsInv(w, k, op, key);
    case ToRecord(op) => RecordStepKeepsInv(w, k, op);
  }

  lemma OtherStepKeepsInv(w: World, k: nat, input: Input)
    requires Inv(w) && k in w.tasks && w.tasks[k].RequestTask?
    ensures var t := w.tasks[k]; Inv(OtherStep(w, k, t.actor, t.item, t.place, input))
  {
    var t := w.tasks[k];
    match t.place
    case ToApprove =>
      if input.Offers? { ApproveStepKeepsInv(w, k, input.candidates, input.now); }
    case ToCheckOperations(_) =>
      EndKeepsInv(w, k);
      GoKeepsInv(w, k, ToRequestReturn);
    case ToCompleteReturn =>
      CompleteReturnReads(w, k);
      CompleteReturnKeepsInv(w, k);
    case ToInsert(_, _) | ToRecord(_) => QueueingKeepsInv(w, k, input);
    case _ =>
  }

  lemma AdvanceKeepsInv(w: World, k: nat, input: Input)
    requires Inv(w) && k in w.tasks && w.tasks[k].RequestTask?
    ensures var t := w.tasks[k]; Inv(Advance(w, k, t.actor, t.item, t.place, input))
  {
    var t := w.tasks[k];
    if PlannedSave(w.dcn, t.actor, t.item, t.place).Some? {
      SavingPlaceKeepsInv(w, k);
    } else if t.place.ToAssign? || t.place.ToClean? || t.place.ToClear? {
      if input.Answer? { CallStepKeepsInv(w, k, input.reply); }
    } else {
      OtherStepKeepsInv(w, k, input);
    }
  }

  // ---- operations ----

  lemma StartKeepsOperations(w: World, w': World, k: nat, id: string)
    requires Operations(w) && k !in w.tasks && InOperationState(w.db, id, Queued)
    requires w.db.operations[id].id == id && w' == StartStep(w, k, id)
    ensures Operations(w')
  {
    forall l | l in w.tasks
      ensures Processed(w', w.tasks[l]) && !Processes(w.tasks[l], id)
    {
      assert Processed(w, w.tasks[l]);
    }
  }

  lemma StartStepKeepsInv(w: World, k: nat, id: string)
    requires Inv(w)
    ensures Inv(StartStep(w, k, id))
  {
    var w' := StartStep(w, k, id);
    if k !in w.tasks && InOperationState(w.db, id, Queued) {
      StartKeepsOperations(w, w', k, id);
      OperationStepKeepsInv(w, w');
    }
  }

  /** What one command does to the fleet. */
  lemma CommandDisturbs(f: Fleet, op: Operation, dcn: string, reply: Reply)
    ensures Disturbs(f, RunCommand(f, op, dcn, reply).fleet, op.node)
  {
  }

  lemma RunKeepsOperations(w: World, w': World, k: nat, op: Operation, reply: Reply)
    requires Operations(w) && k in w.tasks && w.tasks[k] == RunTask(op) && w' == RunStep(w, k, op, reply)
    ensures Operations(w')
  {
    assert Processed(w, w.tasks[k]);
    assert Processes(w.tasks[k], op.id);
    forall l | l in w'.tasks
      ensures Processed(w', w'.tasks[l])
    {
      if l != k {
        assert Processed(w, w.tasks[l]) && !Processes(w.tasks[l], op.id);
      }
    }
  }

  lemma RunStepKeepsInv(w: World, k: nat, op: Operation, reply: Reply)
    requires Inv(w) && k in w.tasks && w.tasks[k] == RunTask(op)
    ensures Inv(RunStep(w, k, op, reply))
  {
    var w' := RunStep(w, k, op, reply);
    CommandDisturbs(w.fleet, op, w.dcn, reply);
    DisturbanceKeepsFleet(w.db, w.fleet, w'.fleet, w.tasks, op.node);
    RunKeepsOperations(w, w', k, op, reply);
    assert forall l, id | l in w'.tasks && Owns(w'.tasks[l], id) :: l in w.tasks && Owns(w.tasks[l], id);
  }

  lemma FinishKeepsOperations(w: World, w': World, k: nat, op: Operation, error: Option<string>)
    requires Operations(w) && k in w.tasks && w.tasks[k] == FinishTask(op, error)
    requires InOperationState(w.db, op.id, Running) && w' == FinishStep(w, k, op, error)
    ensures Operations(w')
  {
    assert Processes(w.tasks[k], op.id);
    forall l | l in w'.tasks
      ensures Processed(w', w'.tasks[l])
    {
      assert Processed(w, w.tasks[l]) && !Processes(w.tasks[l], op.id);
    }
  }

  lemma FinishStepKeepsInv(w: World, k: nat, op: Operation, error: Option<string>)
    requires Inv(w) && k in w.tasks && w.tasks[k] == FinishTask(op, error)
    ensures Inv(FinishStep(w, k, op, error))
  {
    var w' := FinishStep(w, k, op, error);
    if InOperationState(w.db, op.id, Running) {
      FinishKeepsOperations(w, w', k, op, error);
      OperationStepKeepsInv(w, w');
    } else {
      EndKeepsInv(w, k);
    }
  }

  lemma RestartKeepsInv(w: World)
    requires Inv(w)
    ensures Inv(Apply(w, Restart))
  {
    OperationStepKeepsInv(w, Apply(w, Restart));
  }

  // ---- requests and the environment ----

  lemma CreateKeepsTasks(w: World, w': World, r: Request, key: Option<string>)
    requires Rows(w.db.requests) && Copies(w.db.requests, w.tasks) && FleetFits(w)
    requires r.state.Submitted? && CanCreate(w.db, r) && w' == w.(db := Create(w.db, r, key))
    ensures Copies(w'.db.requests, w'.tasks) && FleetFits(w')
  {
    forall n | Held(w.db, n) ensures Held(w'.db, n) {}
    forall k | k in w.tasks ensures CopyFits(w'.db.requests, w.tasks[k]) {
      assert CopyFits(w.db.requests, w.tasks[k]);
    }
  }

  lemma CreateStepKeepsInv(w: World, r: Request, key: Option<string>)
    requires Inv(w) && r.state.Submitted? && r.version == 0 && r.nodes == []
    ensures Inv(CreateStep(w, r, key))
  {
    var w' := CreateStep(w, r, key);
    if !RequestKeyBound(w.db, r.projectId, key) && CanCreate(w.db, r) {
      CreateKeepsSound(w.db, w.dcn, r, key);
      CreateKeepsTasks(w, w', r, key);
      OperationsSurvive(w, w');
    }
  }

  lemma BeginKeepsInv(w: World, k: nat, id: string, actor: Actor, expected: Option<int>, place: Place)
    requires Inv(w) && Carries(place).None?
    requires id in w.db.requests ==> Authorised(RequestTask(actor, w.db.requests[id], place), w.dcn)
    ensures Inv(Begin(w, k, id, actor, expected, place))
  {
    if k !in w.tasks && id in w.db.requests && AsExpected(w.db.requests[id], expected) {
      MoveKeepsInv(w, Begin(w, k, id, actor, expected, place), k);
    }
  }

  lemma ChangeDisturbs(w: World, n: string, c: Condition)
    requires DirtyHeld(w.db, w.fleet) && ChangeStep(w, n, c) != w
    ensures Disturbs(w.fleet, ChangeStep(w, n, c).fleet, n)
  {
  }

  lemma FleetChangeKeepsInv(w: World, f: Fleet)
    requires Inv(w) && FleetFits(w.(fleet := f))
    ensures Inv(w.(fleet := f))
  {
    OperationsSurvive(w, w.(fleet := f));
  }

  lemma ChangeStepKeepsInv(w: World, n: string, c: Condition)
    requires Inv(w)
    ensures Inv(ChangeStep(w, n, c))
  {
    var w' := ChangeStep(w, n, c);
    if w' != w {
      ChangeDisturbs(w, n, c);
      DisturbanceKeepsFleet(w.db, w.fleet, w'.fleet, w.tasks, n);
      FleetChangeKeepsInv(w, w'.fleet);
    }
  }

  lemma AppearStepKeepsInv(w: World, n: string, owner: Option<string>, c: Condition)
    requires Inv(w)
    ensures Inv(AppearStep(w, n, owner, c))
  {
    if n !in w.fleet.nodes {
      var f := AppearStep(w, n, owner, c).fleet;
      GrowthKeepsFleet(w.db, w.fleet, f, w.tasks, n);
      FleetChangeKeepsInv(w, f);
    }
  }

  // ---- all steps, all runs ----

  lemma ContinueStepKeepsInv(w: World, k: nat, input: Input)
    requires Inv(w)
    ensures Inv(ContinueStep(w, k, input))
  {
    if k in w.tasks {
      match w.tasks[k]
      case RequestTask(_, _, _) => AdvanceKeepsInv(w, k, input);
      case RunTask(op) => if input.Answer? { RunStepKeepsInv(w, k, op, input.reply); }
      case FinishTask(op, error) => FinishStepKeepsInv(w, k, op, error);
    }
  }

  lemma ApplyKeepsInv(w: World, s: Step)
    requires Inv(w)
    ensures Inv(Apply(w, s))
  {
    match s
    case CreateRequest(actor, id, profile, quantity, purpose, until, rack, key) =>
      CreateStepKeepsInv(w, NewRequest(actor, id, profile, quantity, purpose, until, rack), key);
    case BeginApprove(k, id, actor, expected) => BeginKeepsInv(w, k, id, actor, expected, ToApprove);
    case BeginReject(k, id, actor, expected, text) => BeginKeepsInv(w, k, id, actor, expected, ToReject(text));
    case BeginCancel(k, id, actor, expected) => BeginKeepsInv(w, k, id, actor, expected, ToCancel);
    case BeginReturn(k, id, actor, expected) => BeginKeepsInv(w, k, id, actor, None, ToCheckOperations(expected));
    case BeginQueue(k, id, actor, version, node, command, operationId, key) =>
      if id in w.db.requests && MayOperate(w.db.requests[id], actor, node, version) {
        BeginKeepsInv(w, k, id, actor, None,
                      ToInsert(NewOperation(w.db.requests[id], actor, node, command, operationId), key));
      }
    case BeginProcess(k, operationId) => StartStepKeepsInv(w, k, operationId);
    case Continue(k, input) => ContinueStepKeepsInv(w, k, input);
    case Abandon(k) => EndKeepsInv(w, k);
    case Restart => RestartKeepsInv(w);
    case NodeChanges(n, condition) => ChangeStepKeepsInv(w, n, condition);
    case NodeAppears(n, owner, condition) => AppearStepKeepsInv(w, n, owner, condition);
  }

  lemma {:induction false} RunKeepsInv(w: World, steps: seq<Step>)
    requires Inv(w)
    ensures Inv(Run(w, steps))
    decreases |steps|
  {
    if steps != [] {
      ApplyKeepsInv(w, steps[0]);
      RunKeepsInv(Apply(w, steps[0]), steps[1..]);
    }
  }

  /** The invariant holds after every run from an empty store. */
  lemma ReachableInv(w: World, steps: seq<Step>)
    requires Initial(w)
    ensures Inv(Run(w, steps))
  {
    InitialInv(w);
    RunKeepsInv(w, steps);
  }
}
