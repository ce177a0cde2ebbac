/** The promises about node operations and idempotency keys, for every run. */
module OperationTheorems {
  import opened Base
  import opened Domain
  import opened Tables
  import opened Ironic
  import opened Ledger
  import opened Protocol
  import opened Invariant
  import opened Steps
  import opened Theorems

  // ---- one runtime call ----

  /** Each operation causes at most one runtime call over any run, whatever is submitted or processed twice
      and however often the service restarts; a node has at most one active operation. */
  lemma AtMostOneRuntimeCall(start: World, steps: seq<Step>, id: string)
    requires Initial(start)
    ensures var w := Run(start, steps);
            && w.issued[id] <= 1
            && (w.issued[id] == 1 ==> id in w.db.operations && !w.db.operations[id].state.Queued?)
            && (id in w.db.operations && w.db.operations[id].Active() ==>
                  forall other | other in w.db.operations && w.db.operations[other].Active()
                                 && w.db.operations[other].node == w.db.operations[id].node :: other == id)
  {
    ReachableInv(start, steps);
  }

  /** An operation belongs to the project of its request, and so does its key. */
  lemma OperationsBelongToTheirProject(start: World, steps: seq<Step>, id: string)
    requires Initial(start) && id in Run(start, steps).db.operations
    ensures var db := Run(start, steps).db;
            var op := db.operations[id];
            && op.requestId in db.requests && op.projectId == db.requests[op.requestId].projectId
            && forall k | k in db.operationKeys && db.operationKeys[k] == id ::
                 k.projectId == op.projectId && k.kind == op.command.Kind()
  {
    ReachableInv(start, steps);
  }

  /** The same submission, however far it has been processed. */
  predicate SameOperation(op: Operation, op': Operation) {
    op'.(state := op.state, error := op.error) == op
  }

  /** A call is counted for an operation exactly when its task makes it, and nothing takes a count back. */
  lemma CallsAreCounted(w: World, s: Step)
    ensures Apply(w, s).issued
            == if s.Continue? && s.input.Answer? && s.k in w.tasks && w.tasks[s.k].RunTask?
                  && !w.tasks[s.k].op.command.OtherCommand?
               then w.issued + multiset{w.tasks[s.k].op.id} else w.issued
  {
    if ByLeaseTask(w, s) { AdvanceCountsNothing(w, s.k, s.input); }
  }

  lemma AdvanceCountsNothing(w: World, k: nat, input: Input)
    requires k in w.tasks && w.tasks[k].RequestTask?
    ensures var t := w.tasks[k]; Advance(w, k, t.actor, t.item, t.place, input).issued == w.issued
  {
  }

  /** The nodes change only by runtime calls, of tasks that process an operation or of lease tasks that assign, clean
      or clear, and by themselves. */
  lemma OnlyCallsTouchTheFleet(w: World, s: Step)
    requires Apply(w, s).fleet != w.fleet
    ensures s.NodeChanges? || s.NodeAppears?
            || (&& s.Continue? && s.input.Answer? && s.k in w.tasks && !w.tasks[s.k].FinishTask?
                && (w.tasks[s.k].RequestTask? ==>
                      w.tasks[s.k].place.ToAssign? || w.tasks[s.k].place.ToClean? || w.tasks[s.k].place.ToClear?))
  {
    if ByLeaseTask(w, s) {
      var t := w.tasks[s.k];
      assert Apply(w, s) == Advance(w, s.k, t.actor, t.item, t.place, s.input);
    }
  }

  /** The call of an operation returns normally, or touches its node at all, only while the operation's project is the
      lessee, by a request of that project, and the node is in the state the command needs and without fault. */
  lemma OperationsRunOnTheirLease(start: World, steps: seq<Step>, op: Operation, reply: Reply)
    requires Initial(start)
    requires var w := Run(start, steps);
             var outcome := RunCommand(w.fleet, op, w.dcn, reply);
             outcome.error == None || outcome.fleet != w.fleet
    ensures var w := Run(start, steps);
            && op.node in w.fleet.nodes
            && var node := w.fleet.nodes[op.node];
            && node.owner == Some(w.dcn) && node.lessee == Some(op.projectId)
            && !node.condition.maintenance && node.condition.lastError in {None, Some("")}
            && (match op.command
                case Deploy(_, _) => node.condition.provision == Available
                case Power(target) => node.condition.provision == ProvisionState.Active
                                      && target in {"on", "off", "reboot", "soft off", "soft reboot"}
                case OtherCommand(_, _) => false)
            && op.node in w.db.reservations && w.db.reservations[op.node].projectId == op.projectId
  {
    RunningNeedsTheLease(Run(start, steps).fleet, op, Run(start, steps).dcn, reply);
    ReachableInv(start, steps);
  }

  lemma RunningNeedsTheLease(f: Fleet, op: Operation, dcn: string, reply: Reply)
    requires RunCommand(f, op, dcn, reply).error == None || RunCommand(f, op, dcn, reply).fleet != f
    ensures && op.node in f.nodes
            && var node := f.nodes[op.node];
            && node.owner == Some(dcn) && node.lessee == Some(op.projectId)
            && !node.condition.maintenance && node.condition.lastError in {None, Some("")}
            && match op.command
               case Deploy(_, _) => node.condition.provision == Available
               case Power(target) => node.condition.provision == ProvisionState.Active
                                     && target in {"on", "off", "reboot", "soft off", "soft reboot"}
               case OtherCommand(_, _) => false
  {
  }

  /** What may become of an operation row. */
  predicate Progresses(op: Operation, op': Operation) {
    && SameOperation(op, op')
    && match op.state
       case Queued => op'.state.Failed? || op'.state.Running? || op' == op
       case Running => op'.state.Succeeded? || op'.state.Failed? || op' == op
       case _ => op' == op
  }

  /** The operations and both tables of idempotency keys are as they were. */
  predicate SameSubmissions(db: Db, db': Db) {
    db'.operations == db.operations && db'.operationKeys == db.operationKeys && db'.requestKeys == db.requestKeys
  }

  lemma SaveKeepsSubmissions(w: World, k: nat, actor: Actor, item: Request, plan: Plan)
    ensures SameSubmissions(w.db, SaveStep(w, k, actor, item, plan).db)
  {
  }

  /** Only the insertion of an operation touches those tables. */
  lemma AdvanceKeepsSubmissions(w: World, k: nat, input: Input)
    requires k in w.tasks && w.tasks[k].RequestTask? && !w.tasks[k].place.ToInsert?
    ensures var t := w.tasks[k]; SameSubmissions(w.db, Advance(w, k, t.actor, t.item, t.place, input).db)
  {
    var t := w.tasks[k];
    var plan := PlannedSave(w.dcn, t.actor, t.item, t.place);
    if plan.Some? { SaveKeepsSubmissions(w, k, t.actor, t.item, plan.value); }
  }

  lemma InsertKeepsOperationRows(w: World, k: nat, op: Operation, key: Option<string>, id: string)
    requires k in w.tasks && w.tasks[k].RequestTask? && id in w.db.operations
    ensures var operations := InsertStep(w, k, w.tasks[k].actor, w.tasks[k].item, op, key).db.operations;
            id in operations && operations[id] == w.db.operations[id]
  {
  }

  predicate ByLeaseTask(w: World, s: Step) {
    s.Continue? && s.k in w.tasks && w.tasks[s.k].RequestTask?
  }

  lemma LeaseTasksKeepOperationRows(w: World, s: Step, id: string)
    requires id in w.db.operations && ByLeaseTask(w, s)
    ensures id in Apply(w, s).db.operations && Apply(w, s).db.operations[id] == w.db.operations[id]
  {
    match w.tasks[s.k].place
    case ToInsert(op, key) => InsertKeepsOperationRows(w, s.k, op, key, id);
    case _ => AdvanceKeepsSubmissions(w, s.k, s.input);
  }

  lemma FinishProgresses(w: World, k: nat, op: Operation, error: Option<string>, id: string)
    requires id in w.db.operations
    ensures var operations := FinishStep(w, k, op, error).db.operations;
            id in operations && Progresses(w.db.operations[id], operations[id])
  {
    if InOperationState(w.db, op.id, Running) {
      var operations := w.db.operations;
      assert FinishStep(w, k, op, error).db.operations == operations[op.id := Finished(operations[op.id], error)];
    } else {
      assert FinishStep(w, k, op, error).db == w.db;
    }
  }

  lemma ProcessingProgresses(w: World, k: nat, input: Input, id: string)
    requires id in w.db.operations && k in w.tasks && !w.tasks[k].RequestTask?
    ensures var operations := ContinueStep(w, k, input).db.operations;
            id in operations && Progresses(w.db.operations[id], operations[id])
  {
    match w.tasks[k]
    case RunTask(_) =>
    case FinishTask(op, error) => FinishProgresses(w, k, op, error, id);
  }

  lemma OtherStepsProgress(w: World, s: Step, id: string)
    requires id in w.db.operations && !s.Continue?
    ensures id in Apply(w, s).db.operations && Progresses(w.db.operations[id], Apply(w, s).db.operations[id])
  {
  }

  lemma OperationsProgress(w: World, s: Step, id: string)
    requires id in w.db.operations
    ensures id in Apply(w, s).db.operations && Progresses(w.db.operations[id], Apply(w, s).db.operations[id])
  {
    if ByLeaseTask(w, s) {
      LeaseTasksKeepOperationRows(w, s, id);
    } else if s.Continue? && s.k in w.tasks {
      ProcessingProgresses(w, s.k, s.input, id);
    } else if !s.Continue? {
      OtherStepsProgress(w, s, id);
    }
  }

  /** A finished operation never changes again. */
  lemma {:induction false} FinishedIsFinal(w: World, steps: seq<Step>, id: string)
    requires id in w.db.operations && !w.db.operations[id].Active()
    ensures id in Run(w, steps).db.operations && Run(w, steps).db.operations[id] == w.db.operations[id]
    decreases |steps|
  {
    if steps != [] {
      OperationsProgress(w, steps[0], id);
      FinishedIsFinal(Apply(w, steps[0]), steps[1..], id);
    }
  }

  /** A row, once inserted, keeps its request, project, user, node and command for good. */
  lemma {:induction false} OperationsKeepTheirContent(w: World, steps: seq<Step>, id: string)
    requires id in w.db.operations
    ensures id in Run(w, steps).db.operations && SameOperation(w.db.operations[id], Run(w, steps).db.operations[id])
    decreases |steps|
  {
    if steps != [] {
      OperationsProgress(w, steps[0], id);
      OperationsKeepTheirContent(Apply(w, steps[0]), steps[1..], id);
    }
  }

  lemma ProcessedIsRunning(w: World, k: nat)
    requires Inv(w) && k in w.tasks && !w.tasks[k].RequestTask?
    ensures InOperationState(w.db, w.tasks[k].op.id, Running)
  {
    assert Processed(w, w.tasks[k]);
  }

  lemma CallIsMade(w: World, k: nat, op: Operation, reply: Reply)
    requires k in w.tasks && w.tasks[k] == RunTask(op)
    ensures var called := Apply(w, Continue(k, Answer(reply)));
            k in called.tasks && called.tasks[k] == FinishTask(op, RunCommand(w.fleet, op, w.dcn, reply).error)
  {
  }

  lemma OutcomeIsRecorded(w: World, k: nat, op: Operation, error: Option<string>, input: Input)
    requires k in w.tasks && w.tasks[k] == FinishTask(op, error) && InOperationState(w.db, op.id, Running)
    ensures var finished := Apply(w, Continue(k, input)).db;
            && op.id in finished.operations
            && (finished.operations[op.id].state.Succeeded? <==> error == None || error == Some(""))
            && (finished.operations[op.id].state.Failed? <==> error.Some? && error.value != "")
  {
  }

  /** What a processed operation is recorded as: succeeded exactly when its runtime call returned,
      or raised an exception whose text is empty. */
  lemma RecordedOutcome(w: World, k: nat, op: Operation, reply: Reply, others: seq<Step>, input: Input)
    requires Inv(w) && k in w.tasks && w.tasks[k] == RunTask(op) && ByOthers(others, k)
    ensures var called := Apply(w, Continue(k, Answer(reply)));
            var error := RunCommand(w.fleet, op, w.dcn, reply).error;
            var finished := Apply(Run(called, others), Continue(k, input));
            && op.id in finished.db.operations
            && (finished.db.operations[op.id].state.Succeeded? <==> error == None || error == Some(""))
            && (finished.db.operations[op.id].state.Failed? <==> error.Some? && error.value != "")
  {
    var called := Apply(w, Continue(k, Answer(reply)));
    CallIsMade(w, k, op, reply);
    ApplyKeepsInv(w, Continue(k, Answer(reply)));
    RunKeepsInv(called, others);
    OthersLeaveTaskAlone(called, others, k);
    ProcessedIsRunning(Run(called, others), k);
    OutcomeIsRecorded(Run(called, others), k, op, RunCommand(w.fleet, op, w.dcn, reply).error, input);
  }

  /** So a failed runtime call is recorded as a success when its exception has no text. */
  lemma SilentFailureIsRecordedAsSuccess(w: World, k: nat, op: Operation, after: Condition, input: Input)
    requires Inv(w) && k in w.tasks && w.tasks[k] == RunTask(op)
    requires op.command.Deploy? && op.node in w.fleet.nodes && w.fleet.nodes[op.node].CanDeploy(op.projectId, w.dcn)
    ensures var called := Apply(w, Continue(k, Answer(Broke("", false, after))));
            && called.fleet == w.fleet
            && var finished := Apply(called, Continue(k, input));
            && op.id in finished.db.operations && finished.db.operations[op.id].state.Succeeded?
  {
    RecordedOutcome(w, k, op, Broke("", false, after), [], input);
  }

  // ---- idempotency ----

  /** A key, once bound, is bound to the same row for good. */
  ghost predicate KeysKept(db: Db, db': Db) {
    && (forall k | k in db.requestKeys :: k in db'.requestKeys && db'.requestKeys[k] == db.requestKeys[k])
    && (forall k | k in db.operationKeys :: k in db'.operationKeys && db'.operationKeys[k] == db.operationKeys[k])
  }

  lemma StepKeepsKeys(w: World, s: Step)
    ensures KeysKept(w.db, Apply(w, s).db)
  {
    if s.Continue? && s.k in w.tasks && w.tasks[s.k].RequestTask? && !w.tasks[s.k].place.ToInsert? {
      AdvanceKeepsSubmissions(w, s.k, s.input);
    }
  }

  lemma {:induction false} RunKeepsKeys(w: World, steps: seq<Step>)
    ensures KeysKept(w.db, Run(w, steps).db)
    decreases |steps|
  {
    if steps != [] {
      StepKeepsKeys(w, steps[0]);
      RunKeepsKeys(Apply(w, steps[0]), steps[1..]);
    }
  }

  /** A creation under a bound key changes nothing, now and for ever: the store answers with the request bound first,
      which is of the same project, has the same contract and is never older than it was. */
  lemma CreationIsIdempotent(w: World, actor: Actor, key: string, steps: seq<Step>,
                             id: string, profile: string, quantity: int, purpose: string, until: int,
                             rack: Option<string>)
    requires Inv(w) && key != "" && RequestKey(actor.projectId, key) in w.db.requestKeys
    ensures var k := RequestKey(actor.projectId, key);
            var w' := Run(w, steps);
            && k in w'.db.requestKeys && w'.db.requestKeys[k] == w.db.requestKeys[k]
            && w'.db.requestKeys[k] in w.db.requests && w'.db.requestKeys[k] in w'.db.requests
            && w'.db.requests[w'.db.requestKeys[k]].projectId == actor.projectId
            && SameContract(w.db.requests[w.db.requestKeys[k]], w'.db.requests[w'.db.requestKeys[k]])
            && w.db.requests[w.db.requestKeys[k]].version <= w'.db.requests[w'.db.requestKeys[k]].version
            && Apply(w', CreateRequest(actor, id, profile, quantity, purpose, until, rack, Some(key))) == w'
  {
    RunKeepsKeys(w, steps);
    RowsOnlyMoveForward(w, steps, w.db.requestKeys[RequestKey(actor.projectId, key)]);
  }

  lemma BoundInsertChangesNothing(w: World, k: nat, actor: Actor, item: Request, op: Operation, key: Option<string>)
    requires OperationKeyBound(w.db, op, key)
    ensures InsertStep(w, k, actor, item, op, key).db == w.db
  {
  }

  /** An operation key, once bound, answers for ever with the operation bound first when the request, the node and
      the payload are those it was bound with, and refuses any other submission; either way no table changes. */
  lemma SubmissionIsIdempotent(w: World, steps: seq<Step>, k: nat, actor: Actor, item: Request, op: Operation,
                               key: string)
    requires Inv(w) && key != "" && OperationKey(op.projectId, op.command.Kind(), key) in w.db.operationKeys
    ensures Consistent(Run(w, steps).db)
    ensures var w' := Run(w, steps);
            var bound := OperationKey(op.projectId, op.command.Kind(), key);
            var id := w.db.operationKeys[bound];
            && bound in w'.db.operationKeys && w'.db.operationKeys[bound] == id
            && id in w.db.operations && id in w'.db.operations
            && var row, row' := w.db.operations[id], w'.db.operations[id];
            && row'.id == row.id && row'.requestId == row.requestId && row'.projectId == row.projectId == op.projectId
            && row'.userId == row.userId && row'.node == row.node && row'.command == row.command
            && row'.command.Kind() == op.command.Kind()
            && SubmissionAnswer(w'.db, op, Some(key))
               == (if op.requestId == row.requestId && op.node == row.node && op.command == row.command then Ok(row')
                   else Err(DomainError))
            && AfterSubmission(w'.db, op, Some(key)) == w'.db
            && InsertStep(w', k, actor, item, op, Some(key)).db == w'.db
  {
    RunKeepsKeys(w, steps);
    RunKeepsInv(w, steps);
    SoundIsConsistent(Run(w, steps).db, Run(w, steps).dcn);
    OperationsKeepTheirContent(w, steps, w.db.operationKeys[KeyOf(op, key)]);
    BoundInsertChangesNothing(Run(w, steps), k, actor, item, op, Some(key));
  }

  lemma InsertionBinds(w: World, k: nat, op: Operation, key: string)
    requires k in w.tasks && w.tasks[k].RequestTask? && w.tasks[k].place == ToInsert(op, Some(key)) && key != ""
    requires OperationKey(op.projectId, op.command.Kind(), key) !in w.db.operationKeys && CanSubmit(w.db, op)
    ensures var db := Apply(w, Continue(k, Nothing)).db;
            && op.id in db.operations && db.operations[op.id] == op
            && OperationKey(op.projectId, op.command.Kind(), key) in db.operationKeys
            && db.operationKeys[OperationKey(op.projectId, op.command.Kind(), key)] == op.id
  {
  }

  /** A retry, with a fresh id and perhaps by another user of the project, is answered with the first operation at any
      later time; anything else under its key is refused. */
  lemma RetryIsAnswered(w: World, k: nat, op: Operation, key: string, steps: seq<Step>, retry: Operation)
    requires Inv(w) && k in w.tasks && w.tasks[k].RequestTask? && w.tasks[k].place == ToInsert(op, Some(key))
    requires key != "" && OperationKey(op.projectId, op.command.Kind(), key) !in w.db.operationKeys
    requires CanSubmit(w.db, op)
    requires retry.projectId == op.projectId && retry.command.Kind() == op.command.Kind()
    ensures var db := Run(Apply(w, Continue(k, Nothing)), steps).db;
            && Consistent(db) && op.id in db.operations
            && db.operations[op.id].(state := op.state, error := op.error) == op
            && SubmissionAnswer(db, retry, Some(key))
               == (if retry.requestId == op.requestId && retry.node == op.node && retry.command == op.command
                   then Ok(db.operations[op.id]) else Err(DomainError))
            && AfterSubmission(db, retry, Some(key)) == db
  {
    var w1 := Apply(w, Continue(k, Nothing));
    InsertionBinds(w, k, op, key);
    ApplyKeepsInv(w, Continue(k, Nothing));
    SubmissionIsIdempotent(w1, steps, k, w.tasks[k].actor, w.tasks[k].item, retry, key);
    OperationsKeepTheirContent(w1, steps, op.id);
  }

  lemma KindsExactly(c: Command)
    ensures match c
            case Deploy(_, _) => c.Kind() == "deploy"
            case Power(_) => c.Kind() == "power"
            case OtherCommand(name, _) => c.Kind() == name
  {
  }
}
