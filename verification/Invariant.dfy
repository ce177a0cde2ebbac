/** The inductive invariant of the protocol: the tables, every task's copy, and the fleet. */
module Invariant {
  import opened Base
  import opened Domain
  import opened Tables
  import opened Ironic
  import opened Ledger
  import opened Protocol

  // ---- tasks and the request rows ----

  /** The state a task has saved last and still carries through; None before its first save. */
  function Carries(p: Place): Option<RequestState> {
    match p
    case ToStartAllocation => Some(Approved)
    case ToAssign(_) | ToRecordAllocationFailure(_) => Some(Allocating)
    case ToStartCleaning => Some(ReturnRequested)
    case ToCompleteReturn | ToClean(_) | ToClear(_) | ToRecordCleaningFailure(_) => Some(Cleaning)
    case _ => None
  }

  /** The task has taken the request over and is the only one that may write it. */
  predicate Owns(t: Task, id: string) {
    t.RequestTask? && t.item.id == id && Carries(t.place).Some?
  }

  /** A copy is never newer than the row; a copy of the row's version is the row; an owner's copy is the row. */
  predicate CopyFits(requests: map<string, Request>, t: Task) {
    t.RequestTask? ==>
      var item := t.item;
      && item.id in requests && WellFormed(item)
      && item.version <= requests[item.id].version
      && (item.version == requests[item.id].version ==> item == requests[item.id])
      && SameContract(item, requests[item.id])
      && (Carries(t.place).Some? ==> item == requests[item.id] && item.state == Carries(t.place).value)
  }

  ghost predicate Copies(requests: map<string, Request>, tasks: map<nat, Task>) {
    && (forall k | k in tasks :: CopyFits(requests, tasks[k]))
    && (forall k, l, id | k in tasks && l in tasks && Owns(tasks[k], id) && Owns(tasks[l], id) :: k == l)
  }

  /** Who may carry an allocation or a return, and what a queued operation may be. */
  predicate Authorised(t: Task, dcn: string) {
    t.RequestTask? ==>
      match t.place
      case ToStartAllocation | ToAssign(_) | ToRecordAllocationFailure(_) => t.actor.projectId == dcn
      case ToStartCleaning | ToCompleteReturn | ToClean(_) | ToClear(_) | ToRecordCleaningFailure(_) =>
        t.actor.projectId == dcn || t.actor.projectId == t.item.projectId
      case ToInsert(op, _) => QueuedFor(t, op)
      case ToRecord(op) => QueuedFor(t, op)
      case _ => true
  }

  ghost predicate AllAuthorised(tasks: map<nat, Task>, dcn: string) {
    forall k | k in tasks :: Authorised(tasks[k], dcn)
  }

  predicate QueuedFor(t: Task, op: Operation)
    requires t.RequestTask?
  {
    && op.requestId == t.item.id && op.projectId == t.item.projectId && op.state.Queued?
    && t.actor.projectId == t.item.projectId && t.item.state.Leased? && op.node in t.item.nodes
  }

  // ---- the fleet ----

  /** `n` is reserved, for a request whose nodes may have a lessee. */
  predicate Held(db: Db, n: string) {
    && n in db.reservations
    && db.reservations[n].requestId in db.requests
    && MayHaveLessee(db.requests[db.reservations[n].requestId].state)
  }

  predicate HasLessee(f: Fleet, n: string, project: string) {
    n in f.nodes && f.nodes[n].lessee == Some(project)
  }

  /** A dirty node that is not available cannot be cleared. */
  predicate CleanOrBlocked(f: Fleet, n: string) {
    n in f.dirty ==> n in f.nodes && !f.nodes[n].condition.provision.Available?
  }

  predicate Cleared(f: Fleet, n: string) {
    n in f.nodes && f.nodes[n].lessee.None? && n !in f.dirty
  }

  ghost predicate LesseesHeld(db: Db, f: Fleet) {
    forall n | n in f.nodes && f.nodes[n].lessee.Some? ::
      Held(db, n) && db.reservations[n].projectId == f.nodes[n].lessee.value
  }

  ghost predicate DirtyHeld(db: Db, f: Fleet) {
    forall n | n in f.dirty :: n in f.nodes && Held(db, n)
  }

  ghost predicate LeasesAssigned(db: Db, f: Fleet) {
    forall id, n | id in db.requests && (db.requests[id].state.Leased? || db.requests[id].state.ReturnRequested?)
                   && n in db.requests[id].nodes ::
      HasLessee(f, n, db.requests[id].projectId)
  }

  /** How far the runtime calls of a task have come. */
  ghost predicate Progress(f: Fleet, t: Task) {
    t.RequestTask? ==>
      var nodes := t.item.nodes;
      match t.place
      case ToAssign(done) =>
        done <= |nodes| && forall j | 0 <= j < done :: HasLessee(f, nodes[j], t.item.projectId)
      case ToClean(cleaned) =>
        cleaned < |nodes| && forall j | 0 <= j < cleaned :: CleanOrBlocked(f, nodes[j])
      case ToClear(cleared) =>
        && cleared <= |nodes|
        && (forall j | 0 <= j < cleared :: Cleared(f, nodes[j]))
        && (forall j | cleared <= j < |nodes| :: CleanOrBlocked(f, nodes[j]))
      case _ => true
  }

  ghost predicate FleetFits(w: World) {
    && LesseesHeld(w.db, w.fleet) && DirtyHeld(w.db, w.fleet) && LeasesAssigned(w.db, w.fleet)
    && forall k | k in w.tasks :: Progress(w.fleet, w.tasks[k])
  }

  // ---- operations ----

  predicate Processes(t: Task, id: string) {
    !t.RequestTask? && t.op.id == id
  }

  /** The operation a task processes is running, as the task read it; before the runtime call none was made. */
  predicate Processed(w: World, t: Task) {
    !t.RequestTask? ==>
      && t.op.id in w.db.operations && w.db.operations[t.op.id] == t.op && t.op.state.Running?
      && (t.RunTask? ==> w.issued[t.op.id] == 0)
  }

  ghost predicate Operations(w: World) {
    && (forall id | id in w.issued ::
          w.issued[id] == 1 && id in w.db.operations && !w.db.operations[id].state.Queued?)
    && (forall k | k in w.tasks :: Processed(w, w.tasks[k]))
    && (forall k, l, id | k in w.tasks && l in w.tasks && Processes(w.tasks[k], id) && Processes(w.tasks[l], id) ::
          k == l)
  }

  ghost predicate Inv(w: World) {
    && Sound(w.db, w.dcn)
    && Copies(w.db.requests, w.tasks)
    && AllAuthorised(w.tasks, w.dcn)
    && FleetFits(w)
    && Operations(w)
  }

  lemma InitialInv(w: World)
    requires Initial(w)
    ensures Inv(w)
  {
  }
}
