/** Who may write a request on its way through an allocation or a return: its owner, and nobody once that is gone. */
module Ownership {
  import opened Base
  import opened Domain
  import opened Tables
  import opened Ledger
  import opened Protocol
  import opened Invariant
  import opened Steps

  /** The states a request passes through while one task carries it. */
  predicate InFlight(s: RequestState) {
    s.Approved? || s.Allocating? || s.ReturnRequested? || s.Cleaning?
  }

  /** The row of `id` is as it was, and nobody owns it who did not own it before. */
  ghost predicate LeavesRow(w: World, w': World, id: string)
    requires id in w.db.requests
  {
    && id in w'.db.requests && w'.db.requests[id] == w.db.requests[id]
    && forall k | k in w'.tasks && Owns(w'.tasks[k], id) :: k in w.tasks && Owns(w.tasks[k], id)
  }

  // ---- one step of a task that is not the owner ----

  /** At the version of the row, the copy of the task is the row. */
  predicate ItemFits(w: World, k: nat)
    requires k in w.tasks && w.tasks[k].RequestTask?
  {
    var item := w.tasks[k].item;
    AtVersion(w.db, item.id, item.version) ==> item == w.db.requests[item.id]
  }

  /** A planned save of a task that does not own the request in flight: of another request, or it raises. */
  lemma PlanOfOther(w: World, k: nat, id: string)
    requires id in w.db.requests && InFlight(w.db.requests[id].state)
    requires k in w.tasks && w.tasks[k].RequestTask? && !Owns(w.tasks[k], id)
    requires ItemFits(w, k)
    requires PlannedSave(w.dcn, w.tasks[k].actor, w.tasks[k].item, w.tasks[k].place).Some?
    ensures var t := w.tasks[k];
            var made := PlannedSave(w.dcn, t.actor, t.item, t.place).value.made;
            made.Err? || made.value.id != id || !AtVersion(w.db, id, t.item.version)
  {
  }

  lemma SaveOfOther(w: World, k: nat, actor: Actor, item: Request, plan: Plan, id: string)
    requires id in w.db.requests
    requires plan.made.Err? || plan.made.value.id != id || !AtVersion(w.db, id, item.version)
    ensures LeavesRow(w, SaveStep(w, k, actor, item, plan), id)
  {
  }

  lemma ApprovalOfOther(w: World, k: nat, candidates: seq<OfferCandidate>, now: int, id: string)
    requires id in w.db.requests && InFlight(w.db.requests[id].state)
    requires k in w.tasks && w.tasks[k].RequestTask?
    requires ItemFits(w, k)
    ensures LeavesRow(w, ApproveStep(w, k, w.tasks[k].actor, w.tasks[k].item, candidates, now), id)
  {
  }

  lemma InsertionLeavesRow(w: World, k: nat, op: Operation, key: Option<string>, id: string)
    requires id in w.db.requests && k in w.tasks && w.tasks[k].RequestTask?
    ensures LeavesRow(w, InsertStep(w, k, w.tasks[k].actor, w.tasks[k].item, op, key), id)
  {
  }

  lemma OtherStepOfOther(w: World, k: nat, input: Input, id: string)
    requires id in w.db.requests && InFlight(w.db.requests[id].state) && Rows(w.db.requests)
    requires k in w.tasks && w.tasks[k].RequestTask? && !Owns(w.tasks[k], id)
    requires ItemFits(w, k)
    ensures var t := w.tasks[k]; LeavesRow(w, OtherStep(w, k, t.actor, t.item, t.place, input), id)
  {
    match w.tasks[k].place
    case ToApprove => if input.Offers? { ApprovalOfOther(w, k, input.candidates, input.now, id); }
    case ToInsert(op, key) => InsertionLeavesRow(w, k, op, key, id);
    case _ =>
  }

  lemma ItemsFit(w: World, k: nat)
    requires Inv(w) && k in w.tasks && w.tasks[k].RequestTask?
    ensures ItemFits(w, k) && Rows(w.db.requests)
  {
    var item := w.tasks[k].item;
    if AtVersion(w.db, item.id, item.version) { CurrentCopy(w, k); }
  }

  lemma AdvanceOfOther(w: World, k: nat, input: Input, id: string)
    requires id in w.db.requests && InFlight(w.db.requests[id].state) && Rows(w.db.requests)
    requires k in w.tasks && w.tasks[k].RequestTask? && !Owns(w.tasks[k], id) && ItemFits(w, k)
    ensures var t := w.tasks[k]; LeavesRow(w, Advance(w, k, t.actor, t.item, t.place, input), id)
  {
    var t := w.tasks[k];
    var plan := PlannedSave(w.dcn, t.actor, t.item, t.place);
    if plan.Some? {
      PlanOfOther(w, k, id);
      SaveOfOther(w, k, t.actor, t.item, plan.value, id);
    } else {
      OtherStepOfOther(w, k, input, id);
    }
  }

  /** Steps of the environment, of tasks that begin, and of tasks that process an operation. */
  lemma StepWithoutLease(w: World, s: Step, id: string)
    requires id in w.db.requests
    requires s.Continue? && s.k in w.tasks ==> !w.tasks[s.k].RequestTask?
    ensures LeavesRow(w, Apply(w, s), id)
  {
  }

  /** Whatever step is taken, unless an owner goes on: the request in flight stays as it is. */
  lemma OnlyOwnersWrite(w: World, s: Step, id: string)
    requires Inv(w) && id in w.db.requests && InFlight(w.db.requests[id].state)
    requires s.Continue? && s.k in w.tasks ==> !Owns(w.tasks[s.k], id)
    ensures LeavesRow(w, Apply(w, s), id)
  {
    if s.Continue? && s.k in w.tasks && w.tasks[s.k].RequestTask? {
      ItemsFit(w, s.k);
      AdvanceOfOther(w, s.k, s.input, id);
    } else {
      StepWithoutLease(w, s, id);
    }
  }

  // ---- whole runs ----

  /** Single owner: once a task carries an allocation or a return, no other call ever writes the request. The run
      is arbitrary but for the owner's own steps: the others may do anything, and the owner may die with the process. */
  lemma {:induction false} OnlyTheOwnerWrites(w: World, steps: seq<Step>, k: nat, id: string)
    requires Inv(w) && id in w.db.requests && InFlight(w.db.requests[id].state)
    requires forall l | l in w.tasks && Owns(w.tasks[l], id) :: l == k
    requires forall s | s in steps :: !(s.Continue? && s.k == k)
    ensures LeavesRow(w, Run(w, steps), id)
    decreases |steps|
  {
    if steps != [] {
      assert steps[0] in steps;
      OnlyOwnersWrite(w, steps[0], id);
      ApplyKeepsInv(w, steps[0]);
      OnlyTheOwnerWrites(Apply(w, steps[0]), steps[1..], k, id);
    }
  }

  /** So a task that owns a request is the only one whose steps may write it. */
  lemma TheOwnerIsAlone(w: World, steps: seq<Step>, k: nat, id: string)
    requires Inv(w) && k in w.tasks && Owns(w.tasks[k], id)
    requires forall s | s in steps :: !(s.Continue? && s.k == k)
    ensures id in Run(w, steps).db.requests
    ensures Run(w, steps).db.requests[id] == w.db.requests[id] == w.tasks[k].item
  {
    CurrentCopy(w, k);
    OnlyTheOwnerWrites(w, steps, k, id);
  }

  /** A request in flight that has lost its owner is never written again, and keeps its nodes reserved. */
  lemma {:induction false} OrphansAreFrozen(w: World, steps: seq<Step>, id: string)
    requires Inv(w) && id in w.db.requests && InFlight(w.db.requests[id].state)
    requires forall k | k in w.tasks :: !Owns(w.tasks[k], id)
    ensures id in Run(w, steps).db.requests && Run(w, steps).db.requests[id] == w.db.requests[id]
    ensures forall n | n in w.db.requests[id].nodes :: ReservedFor(Run(w, steps).db, n, id)
    decreases |steps|
  {
    if steps != [] {
      OnlyOwnersWrite(w, steps[0], id);
      ApplyKeepsInv(w, steps[0]);
      OrphansAreFrozen(Apply(w, steps[0]), steps[1..], id);
    }
  }

  /** That is what a restart leaves of every allocation and return it interrupts. */
  lemma RestartFreezes(w: World, steps: seq<Step>, id: string)
    requires Inv(w) && id in w.db.requests && InFlight(w.db.requests[id].state)
    ensures id in Run(Apply(w, Restart), steps).db.requests
    ensures Run(Apply(w, Restart), steps).db.requests[id] == w.db.requests[id]
    ensures forall n | n in w.db.requests[id].nodes :: ReservedFor(Run(Apply(w, Restart), steps).db, n, id)
  {
    ApplyKeepsInv(w, Restart);
    OrphansAreFrozen(Apply(w, Restart), steps, id);
  }

  /** And the death of its owner alone. */
  lemma AbandonedIsFrozen(w: World, k: nat, steps: seq<Step>, id: string)
    requires Inv(w) && k in w.tasks && Owns(w.tasks[k], id)
    ensures id in Run(Apply(w, Abandon(k)), steps).db.requests
    ensures Run(Apply(w, Abandon(k)), steps).db.requests[id] == w.db.requests[id]
  {
    CurrentCopy(w, k);
    ApplyKeepsInv(w, Abandon(k));
    OrphansAreFrozen(Apply(w, Abandon(k)), steps, id);
  }
}
