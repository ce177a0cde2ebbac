/**
 The database as a value: its six tables, and what each transaction makes of them.
 A transaction that raises leaves the tables alone, so only the committed ones are functions here.
 */
module Tables {
  import opened Base
  import opened Domain

  datatype Reservation = Reservation(requestId: string, projectId: string)

  datatype Action =
    | Created | Approve | AllocationStarted | AllocationFailed | AllocationCompleted
    | Reject | Cancel | AskedToReturn | CleaningStarted | CleaningFailed | CleaningCompleted
    | OperationQueued(kind: string, node: string)

  datatype PublicState = PublicState(state: RequestState, version: int, nodes: seq<string>, projectId: string)

  datatype AuditEvent = AuditEvent(requestId: string, actorUser: string, actorProject: string,
                                   action: Action, before: Option<PublicState>, after: PublicState)

  datatype OperationState = Queued | Running | Succeeded | Failed

  /** The operation and its payload in one value; the operation column is `Kind()`. */
  datatype Command =
    | Deploy(imageId: string, configDrive: string)
    | Power(target: string)
    | OtherCommand(name: string, payload: string) {

    function Kind(): string {
      match this
      case Deploy(_, _) => "deploy"
      case Power(_) => "power"
      case OtherCommand(name, _) => name
    }
  }

  datatype Operation = Operation(id: string, requestId: string, projectId: string, userId: string,
                                 node: string, command: Command, state: OperationState, error: Option<string>) {
    predicate Active() {
      state.Queued? || state.Running?
    }
  }

  datatype RequestKey = RequestKey(projectId: string, key: string)
  datatype OperationKey = OperationKey(projectId: string, kind: string, key: string)

  datatype Db = Db(
    requests: map<string, Request>,
    reservations: map<string, Reservation>,
    audit: seq<AuditEvent>,
    requestKeys: map<RequestKey, string>,
    operations: map<string, Operation>,
    operationKeys: map<OperationKey, string>)

  const EMPTY: Db := Db(map[], map[], [], map[], map[], map[])

  /** Rows sit under their own primary key and every idempotency key names a row. */
  predicate Consistent(db: Db) {
    && (forall id | id in db.requests :: db.requests[id].id == id)
    && (forall k | k in db.requestKeys :: db.requestKeys[k] in db.requests)
    && (forall id | id in db.operations :: db.operations[id].id == id)
    && (forall k | k in db.operationKeys :: db.operationKeys[k] in db.operations)
  }

  function Public(r: Request): PublicState {
    PublicState(r.state, r.version, r.nodes, r.projectId)
  }

  function Event(before: Option<Request>, after: Request, user: string, project: string, action: Action): AuditEvent {
    AuditEvent(after.id, user, project, action,
               if before.Some? then Some(Public(before.value)) else None, Public(after))
  }

  // ---- requests ----

  predicate RequestKeyBound(db: Db, project: string, key: Option<string>) {
    Truthy(key) && RequestKey(project, key.value) in db.requestKeys
  }

  predicate CanCreate(db: Db, r: Request) {
    r.id !in db.requests && r.quantity > 0
  }

  function Create(db: Db, r: Request, key: Option<string>): Db {
    db.(requests := db.requests[r.id := r],
        audit := db.audit + [Event(None, r, r.userId, r.projectId, Created)],
        requestKeys := if Truthy(key) then db.requestKeys[RequestKey(r.projectId, key.value) := r.id]
                       else db.requestKeys)
  }

  /** The row exists and nobody has written it since version `expected`. */
  predicate AtVersion(db: Db, id: string, expected: int) {
    id in db.requests && db.requests[id].version == expected
  }

  function StaleError(db: Db, id: string): Error {
    if id in db.requests then VersionConflict else NotFound
  }

  predicate CanReserve(db: Db, r: Request, expected: int) {
    AtVersion(db, r.id, expected) && Distinct(r.nodes) && forall n | n in r.nodes :: n !in db.reservations
  }

  function ReservationsFor(r: Request): map<string, Reservation> {
    map n | n in r.nodes :: Reservation(r.id, r.projectId)
  }

  /** save_with_reservations writes only the decision columns of the row. */
  function Decided(row: Request, r: Request): Request {
    row.(state := r.state, nodes := r.nodes, reviewer := r.reviewer, reason := r.reason, version := r.version)
  }

  function Reserve(db: Db, r: Request, user: string, project: string, action: Action): Db
    requires r.id in db.requests
  {
    db.(requests := db.requests[r.id := Decided(db.requests[r.id], r)],
        reservations := db.reservations + ReservationsFor(r),
        audit := db.audit + [Event(Some(db.requests[r.id]), r, user, project, action)])
  }

  function Released(reservations: map<string, Reservation>, id: string): map<string, Reservation> {
    map n | n in reservations && reservations[n].requestId != id :: reservations[n]
  }

  function Save(db: Db, r: Request, user: string, project: string, action: Action, release: bool): Db
    requires r.id in db.requests
  {
    db.(requests := db.requests[r.id := r],
        reservations := if release then Released(db.reservations, r.id) else db.reservations,
        audit := db.audit + [Event(Some(db.requests[r.id]), r, user, project, action)])
  }

  function Record(db: Db, id: string, user: string, project: string, action: Action): Db
    requires id in db.requests
  {
    db.(audit := db.audit + [Event(Some(db.requests[id]), db.requests[id], user, project, action)])
  }

  // ---- operations ----

  function KeyOf(op: Operation, key: string): OperationKey {
    OperationKey(op.projectId, op.command.Kind(), key)
  }

  predicate OperationKeyBound(db: Db, op: Operation, key: Option<string>) {
    Truthy(key) && KeyOf(op, key.value) in db.operationKeys
  }

  predicate SameSubmission(a: Operation, b: Operation) {
    a.requestId == b.requestId && a.node == b.node && a.command == b.command
  }

  predicate NodeBusy(db: Db, node: string) {
    exists id | id in db.operations :: db.operations[id].node == node && db.operations[id].Active()
  }

  predicate RequestBusy(db: Db, requestId: string) {
    exists id | id in db.operations :: db.operations[id].requestId == requestId && db.operations[id].Active()
  }

  predicate CanSubmit(db: Db, op: Operation) {
    !NodeBusy(db, op.node) && op.id !in db.operations
  }

  function Submit(db: Db, op: Operation, key: Option<string>): Db {
    db.(operations := db.operations[op.id := op],
        operationKeys := if Truthy(key) then db.operationKeys[KeyOf(op, key.value) := op.id] else db.operationKeys)
  }

  /** What a submission is answered with. */
  function SubmissionAnswer(db: Db, op: Operation, key: Option<string>): Result<Operation>
    requires Consistent(db)
  {
    if OperationKeyBound(db, op, key) then
      var bound := db.operations[db.operationKeys[KeyOf(op, key.value)]];
      if SameSubmission(bound, op) then Ok(bound) else Err(DomainError)
    else if CanSubmit(db, op) then Ok(op)
    else Err(if NodeBusy(db, op.node) then DomainError else IntegrityError)
  }

  /** And what it makes of the tables. */
  function AfterSubmission(db: Db, op: Operation, key: Option<string>): Db {
    if !OperationKeyBound(db, op, key) && CanSubmit(db, op) then Submit(db, op, key) else db
  }

  predicate InOperationState(db: Db, id: string, state: OperationState) {
    id in db.operations && db.operations[id].state == state
  }

  function Start(db: Db, id: string): Db
    requires id in db.operations
  {
    db.(operations := db.operations[id := db.operations[id].(state := Running)])
  }

  function Finished(op: Operation, error: Option<string>): Operation {
    if Truthy(error) then op.(state := Failed, error := Some(Truncate(error.value)))
    else op.(state := Succeeded, error := None)
  }

  function Finish(db: Db, id: string, error: Option<string>): Db
    requires id in db.operations
  {
    db.(operations := db.operations[id := Finished(db.operations[id], error)])
  }

  const RESTART_ERROR := "service restarted before operation completion; operator reconciliation required"

  /** Opening the SQLite file fails whatever the last process left queued or running. */
  function Reopen(db: Db): Db {
    db.(operations := map id | id in db.operations ::
      if db.operations[id].Active() then db.operations[id].(state := Failed, error := Some(RESTART_ERROR))
      else db.operations[id])
  }
}
