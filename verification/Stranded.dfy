/** A queueing that raises after its operation is in the table: exactly when, and what is left behind. */
module Stranded {
  import opened Base
  import opened Domain
  import opened Tables
  import opened Ledger
  import opened Protocol
  import opened Invariant
  import opened Steps
  import opened OperationTheorems
  import opened ReturnRace

  /** The last step of a queueing ends the call and leaves the operations as they are. It raises, and no event tells
      of the operation, if and only if the request is no longer leased. */
  lemma QueueingRaisesExactly(w: World, k: nat, op: Operation, input: Input)
    requires Inv(w) && k in w.tasks && w.tasks[k].RequestTask? && w.tasks[k].place == ToRecord(op)
    ensures var item := w.tasks[k].item;
            var w' := Apply(w, Continue(k, input));
            && k !in w'.tasks && w'.db.operations == w.db.operations
            && item.id == op.requestId && item.id in w.db.requests
            && (w'.db.audit == w.db.audit <==> !w.db.requests[item.id].state.Leased?)
            && (AtVersion(w.db, item.id, item.version) <==> w.db.requests[item.id].state.Leased?)
  {
    assert CopyFits(w.db.requests, w.tasks[k]) && Authorised(w.tasks[k], w.dcn);
  }

  // ---- how long it stays ----

  /** The step takes a queued operation `id` out of the queue. */
  predicate Unqueues(w: World, s: Step, id: string) {
    s.Restart? || (s.BeginProcess? && s.operationId == id && s.k !in w.tasks)
  }

  lemma UnqueuedExactly(w: World, s: Step, id: string)
    requires id in w.db.operations && w.db.operations[id].id == id && w.db.operations[id].state.Queued?
    ensures id in Apply(w, s).db.operations
    ensures if Unqueues(w, s, id) then !Apply(w, s).db.operations[id].state.Queued?
            else Apply(w, s).db.operations[id] == w.db.operations[id]
  {
    OperationsProgress(w, s, id);
    if ByLeaseTask(w, s) { LeaseTasksKeepOperationRows(w, s, id); }
  }

  /** No step of the run starts the operation or the process. */
  ghost predicate NeverUnqueued(w: World, steps: seq<Step>, id: string)
    decreases |steps|
  {
    steps != [] ==> !Unqueues(w, steps[0], id) && NeverUnqueued(Apply(w, steps[0]), steps[1..], id)
  }

  /** A queued operation stays queued exactly as long as nothing starts it and the process does not restart. */
  lemma {:induction false} QueuedExactlyUntilStarted(w: World, steps: seq<Step>, id: string)
    requires id in w.db.operations && w.db.operations[id].id == id && w.db.operations[id].state.Queued?
    ensures id in Run(w, steps).db.operations
    ensures if NeverUnqueued(w, steps, id) then Run(w, steps).db.operations[id] == w.db.operations[id]
            else !Run(w, steps).db.operations[id].state.Queued?
    decreases |steps|
  {
    if steps != [] {
      UnqueuedExactly(w, steps[0], id);
      if Unqueues(w, steps[0], id) {
        NeverQueuedAgain(Apply(w, steps[0]), steps[1..], id);
      } else {
        QueuedExactlyUntilStarted(Apply(w, steps[0]), steps[1..], id);
      }
    }
  }

  lemma {:induction false} NeverQueuedAgain(w: World, steps: seq<Step>, id: string)
    requires id in w.db.operations && !w.db.operations[id].state.Queued?
    ensures id in Run(w, steps).db.operations && !Run(w, steps).db.operations[id].state.Queued?
    decreases |steps|
  {
    if steps != [] {
      OperationsProgress(w, steps[0], id);
      NeverQueuedAgain(Apply(w, steps[0]), steps[1..], id);
    }
  }

  /** Until then its node is busy: whatever becomes of the request, every submission for the node that no key
      answers is refused. */
  lemma StrandedNodeRefuses(w: World, steps: seq<Step>, id: string, other: Operation, key: Option<string>)
    requires Inv(w) && id in w.db.operations && w.db.operations[id].state.Queued? && NeverUnqueued(w, steps, id)
    requires other.node == w.db.operations[id].node && !OperationKeyBound(Run(w, steps).db, other, key)
    ensures Consistent(Run(w, steps).db) && NodeBusy(Run(w, steps).db, other.node)
    ensures SubmissionAnswer(Run(w, steps).db, other, key) == Err(DomainError)
    ensures AfterSubmission(Run(w, steps).db, other, key) == Run(w, steps).db
  {
    QueuedExactlyUntilStarted(w, steps, id);
    RunKeepsInv(w, steps);
    SoundIsConsistent(Run(w, steps).db, Run(w, steps).dcn);
  }

  /** From every idle lease a return can overtake a queueing: the queueing raises, its operation stays queued on a
      node that is being cleaned, and the trail does not mention it. */
  lemma QueueingCanBeStranded(w: World, k: nat, l: nat, id: string, actor: Actor, node: string, command: Command,
                              operationId: string)
    requires Inv(w) && id in w.db.requests && k !in w.tasks && l !in w.tasks && k != l
    requires MayOperate(w.db.requests[id], actor, node, w.db.requests[id].version)
    requires !RequestBusy(w.db, id) && !NodeBusy(w.db, node) && operationId !in w.db.operations
    ensures var r := w.db.requests[id];
            var before := Run(w, BadInterleaving(k, l, r, actor, node, command, operationId));
            var w' := Apply(before, Continue(l, Nothing));
            && l !in w'.tasks && id in w'.db.requests && w'.db.requests[id].state.Cleaning?
            && w'.db.audit == before.db.audit
            && operationId in w'.db.operations
            && w'.db.operations[operationId] == NewOperation(r, actor, node, command, operationId)
            && NodeBusy(w'.db, node)
  {
    var r := w.db.requests[id];
    var steps := BadInterleaving(k, l, r, actor, node, command, operationId);
    var before := Run(w, steps);
    RaceCanBeLost(w, k, l, id, actor, node, command, operationId);
    RunKeepsInv(w, steps);
    QueueingRaisesExactly(before, l, NewOperation(r, actor, node, command, operationId), Nothing);
    RecordKeepsRequests(before, l);
  }

  lemma RecordKeepsRequests(w: World, k: nat)
    requires k in w.tasks && w.tasks[k].RequestTask? && w.tasks[k].place.ToRecord?
    ensures Apply(w, Continue(k, Nothing)).db.requests == w.db.requests
  {
  }
}
