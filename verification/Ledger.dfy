/**
 What the tables say at every moment, whatever tasks are in flight: the shape of each request row, the
 exactness of the reservation table, the audit trail as a chain, and the operation and idempotency tables.
 Each kind of transaction is shown to keep all of it.
 */
module Ledger {
  import opened Base
  import opened Domain
  import opened Tables

  // ---- request rows ----

  /** States in which the nodes of a request are reserved for it. */
  predicate Holding(s: RequestState) {
    s.Approved? || MayHaveLessee(s)
  }

  /** States in which Ironic may name the project of the request as lessee. */
  predicate MayHaveLessee(s: RequestState) {
    s.Allocating? || s.Leased? || s.ReturnRequested? || s.Cleaning? || s.Errored?
  }

  predicate HasNodes(s: RequestState) {
    Holding(s) || s.Returned?
  }

  /** The version is a function of the state, except that an allocation fails at 3 and a return at 6. */
  predicate VersionFits(s: RequestState, version: int) {
    match s
    case Submitted => version == 0
    case Reviewing => false
    case Approved | Rejected | Cancelled => version == 1
    case Allocating => version == 2
    case Leased => version == 3
    case ReturnRequested => version == 4
    case Cleaning => version == 5
    case Returned => version == 6
    case Errored => version == 3 || version == 6
  }

  predicate WellFormed(r: Request) {
    && r.quantity > 0
    && VersionFits(r.state, r.version)
    && (if HasNodes(r.state) then |r.nodes| == r.quantity && Distinct(r.nodes) else r.nodes == [])
  }

  ghost predicate Rows(requests: map<string, Request>) {
    forall id | id in requests :: requests[id].id == id && WellFormed(requests[id])
  }

  /** The part of a request that nothing but its creation sets. */
  predicate SameContract(a: Request, b: Request) {
    && a.id == b.id && a.projectId == b.projectId && a.userId == b.userId && a.profile == b.profile
    && a.quantity == b.quantity && a.purpose == b.purpose && a.requestedUntil == b.requestedUntil && a.rack == b.rack
  }

  // ---- reservations ----

  /** `n` is reserved for request `id`. */
  predicate ReservedFor(db: Db, n: string, id: string) {
    n in db.reservations && db.reservations[n].requestId == id
  }

  /** The reservation table is exactly the nodes of the holding requests, each for its own request and project. */
  ghost predicate Exact(db: Db) {
    && (forall n | n in db.reservations ::
          var res := db.reservations[n];
          && res.requestId in db.requests
          && res.projectId == db.requests[res.requestId].projectId
          && Holding(db.requests[res.requestId].state)
          && n in db.requests[res.requestId].nodes)
    && (forall id, n | id in db.requests && Holding(db.requests[id].state) && n in db.requests[id].nodes ::
          ReservedFor(db, n, id))
  }

  // ---- audit ----

  /** The public state the trail ends with for a request. */
  function Latest(audit: seq<AuditEvent>, id: string): Option<PublicState> {
    if audit == [] then None
    else
      var last := audit[|audit| - 1];
      if last.requestId == id then Some(last.after) else Latest(audit[..|audit| - 1], id)
  }

  predicate Moves(e: AuditEvent, from: RequestState, to: RequestState) {
    && e.before.Some? && e.before.value.state == from && e.after.state == to
    && e.after.version == e.before.value.version + 1
    && e.after.projectId == e.before.value.projectId
  }

  predicate MovesKeepingNodes(e: AuditEvent, from: RequestState, to: RequestState) {
    Moves(e, from, to) && e.after.nodes == e.before.value.nodes
  }

  /** The lifecycle edge, and who may have taken it, that each action stands for. */
  predicate Lawful(e: AuditEvent, dcn: string) {
    match e.action
    case Created => e.before.None? && e.after.state.Submitted? && e.after.version == 0 && e.after.nodes == []
                    && e.actorProject == e.after.projectId
    case Approve => Moves(e, Submitted, Approved) && e.before.value.nodes == [] && e.actorProject == dcn
    case Reject => MovesKeepingNodes(e, Submitted, Rejected) && e.actorProject == dcn
    case Cancel => MovesKeepingNodes(e, Submitted, Cancelled) && e.actorProject == e.after.projectId
    case AllocationStarted => MovesKeepingNodes(e, Approved, Allocating) && e.actorProject == dcn
    case AllocationCompleted => MovesKeepingNodes(e, Allocating, Leased) && e.actorProject == dcn
    case AllocationFailed => MovesKeepingNodes(e, Allocating, Errored) && e.actorProject == dcn
    case AskedToReturn => MovesKeepingNodes(e, Leased, ReturnRequested) && MayReturn(e, dcn)
    case CleaningStarted => MovesKeepingNodes(e, ReturnRequested, Cleaning) && MayReturn(e, dcn)
    case CleaningCompleted => MovesKeepingNodes(e, Cleaning, Returned) && MayReturn(e, dcn)
    case CleaningFailed => MovesKeepingNodes(e, Cleaning, Errored) && MayReturn(e, dcn)
    case OperationQueued(_, node) => e.before == Some(e.after) && e.after.state.Leased? && node in e.after.nodes
                                     && e.actorProject == e.after.projectId
  }

  predicate MayReturn(e: AuditEvent, dcn: string) {
    e.actorProject == dcn || e.actorProject == e.after.projectId
  }

  /** Every event starts where the last event of the same request ended, and is lawful. */
  ghost predicate Chained(audit: seq<AuditEvent>, dcn: string) {
    forall i | 0 <= i < |audit| ::
      audit[i].before == Latest(audit[..i], audit[i].requestId) && Lawful(audit[i], dcn)
  }

  /** Replaying the trail gives the current public state of every request, and nothing else. */
  ghost predicate Replays(db: Db) {
    forall id {:trigger Latest(db.audit, id)} ::
      Latest(db.audit, id) == if id in db.requests then Some(Public(db.requests[id])) else None
  }

  lemma LatestOfExtension(audit: seq<AuditEvent>, e: AuditEvent, id: string)
    ensures Latest(audit + [e], id) == if e.requestId == id then Some(e.after) else Latest(audit, id)
  {
    assert (audit + [e])[..|audit|] == audit;
  }

  /** An event that starts at the current state of its request and takes it where the new rows say. */
  lemma ExtendTrail(db: Db, db': Db, e: AuditEvent, dcn: string)
    requires Chained(db.audit, dcn) && Replays(db) && db'.audit == db.audit + [e]
    requires Lawful(e, dcn)
    requires e.before == if e.requestId in db.requests then Some(Public(db.requests[e.requestId])) else None
    requires e.requestId in db'.requests && db'.requests == db.requests[e.requestId := db'.requests[e.requestId]]
    requires e.after == Public(db'.requests[e.requestId])
    ensures Chained(db'.audit, dcn) && Replays(db')
  {
    forall i | 0 <= i < |db'.audit|
      ensures db'.audit[i].before == Latest(db'.audit[..i], db'.audit[i].requestId) && Lawful(db'.audit[i], dcn)
    {
      if i < |db.audit| {
        assert db'.audit[..i] == db.audit[..i];
      } else {
        assert db'.audit[..i] == db.audit;
      }
    }
    forall id
      ensures Latest(db'.audit, id) == if id in db'.requests then Some(Public(db'.requests[id])) else None
    {
      LatestOfExtension(db.audit, e, id);
    }
  }

  // ---- operations and keys ----

  ghost predicate OperationRows(db: Db) {
    && (forall id | id in db.operations ::
          var op := db.operations[id];
          && op.id == id
          && op.requestId in db.requests
          && op.projectId == db.requests[op.requestId].projectId)
    && (forall a, b | a in db.operations && b in db.operations
          && db.operations[a].Active() && db.operations[b].Active()
          && db.operations[a].node == db.operations[b].node :: a == b)
  }

  ghost predicate Keys(db: Db) {
    && (forall k | k in db.requestKeys ::
          db.requestKeys[k] in db.requests && db.requests[db.requestKeys[k]].projectId == k.projectId)
    && (forall k | k in db.operationKeys ::
          && db.operationKeys[k] in db.operations
          && db.operations[db.operationKeys[k]].projectId == k.projectId
          && db.operations[db.operationKeys[k]].command.Kind() == k.kind)
  }

  // ---- all of it, kept by every transaction ----

  ghost predicate Sound(db: Db, dcn: string) {
    && Rows(db.requests) && Exact(db)
    && Chained(db.audit, dcn) && Replays(db)
    && OperationRows(db) && Keys(db)
  }

  lemma SoundIsConsistent(db: Db, dcn: string)
    requires Sound(db, dcn)
    ensures Consistent(db)
  {
  }

  /** All but the trail. */
  ghost predicate TablesSound(db: Db) {
    Rows(db.requests) && Exact(db) && OperationRows(db) && Keys(db)
  }

  lemma CreateKeepsTables(db: Db, r: Request, key: Option<string>)
    requires TablesSound(db) && CanCreate(db, r) && r.state.Submitted? && r.version == 0 && r.nodes == []
    ensures TablesSound(Create(db, r, key))
  {
  }

  /** The free nodes of the request become its reservations. */
  lemma ReserveKeepsExact(db: Db, db': Db, r: Request)
    requires Rows(db.requests) && Exact(db) && r.id in db.requests && !Holding(db.requests[r.id].state)
    requires Holding(r.state) && forall n | n in r.nodes :: n !in db.reservations
    requires db'.requests == db.requests[r.id := r] && db'.reservations == db.reservations + ReservationsFor(r)
    ensures Exact(db')
  {
    forall id, n | id in db'.requests && Holding(db'.requests[id].state) && n in db'.requests[id].nodes
      ensures ReservedFor(db', n, id)
    {
      if id != r.id { assert ReservedFor(db, n, id); }
    }
  }

  lemma ReserveKeepsTables(db: Db, r: Request, user: string, project: string)
    requires TablesSound(db) && r.id in db.requests && CanReserve(db, r, db.requests[r.id].version)
    requires SameContract(db.requests[r.id], r) && db.requests[r.id].state.Submitted? && r.state.Approved?
    requires r.version == db.requests[r.id].version + 1 && |r.nodes| == r.quantity
    ensures Decided(db.requests[r.id], r) == r && TablesSound(Reserve(db, r, user, project, Action.Approve))
  {
    ReserveKeepsExact(db, Reserve(db, r, user, project, Action.Approve), r);
  }

  lemma CreateKeepsSound(db: Db, dcn: string, r: Request, key: Option<string>)
    requires Sound(db, dcn) && CanCreate(db, r)
    requires r.state.Submitted? && r.version == 0 && r.nodes == []
    ensures Sound(Create(db, r, key), dcn)
  {
    CreateKeepsTables(db, r, key);
    ExtendTrail(db, Create(db, r, key), Event(None, r, r.userId, r.projectId, Created), dcn);
  }

  lemma ReserveKeepsSound(db: Db, dcn: string, r: Request, user: string)
    requires Sound(db, dcn) && r.id in db.requests
    requires CanReserve(db, r, db.requests[r.id].version)
    requires SameContract(db.requests[r.id], r) && db.requests[r.id].state.Submitted? && r.state.Approved?
    requires r.version == db.requests[r.id].version + 1 && |r.nodes| == r.quantity
    ensures Decided(db.requests[r.id], r) == r
    ensures Sound(Reserve(db, r, user, dcn, Action.Approve), dcn)
  {
    var db' := Reserve(db, r, user, dcn, Action.Approve);
    ReserveKeepsTables(db, r, user, dcn);
    ExtendTrail(db, db', Event(Some(db.requests[r.id]), r, user, dcn, Action.Approve), dcn);
  }

  /** A save is one lawful step of the request that keeps its contract and its nodes, and that
      releases the reservations exactly when the request stops holding them. */
  ghost predicate LawfulSave(before: Request, after: Request, user: string, project: string,
                             action: Action, release: bool, dcn: string) {
    && SameContract(before, after) && before.nodes == after.nodes && WellFormed(after)
    && after.version == before.version + 1
    && Lawful(Event(Some(before), after, user, project, action), dcn)
    && (Holding(after.state) <==> Holding(before.state) && !release)
  }

  /** The reservations stay with the request, or go when it stops holding them. */
  lemma SaveKeepsExact(db: Db, db': Db, r: Request, release: bool)
    requires Rows(db.requests) && Exact(db) && r.id in db.requests
    requires SameContract(db.requests[r.id], r) && db.requests[r.id].nodes == r.nodes
    requires Holding(r.state) <==> Holding(db.requests[r.id].state) && !release
    requires db'.requests == db.requests[r.id := r]
    requires db'.reservations == if release then Released(db.reservations, r.id) else db.reservations
    ensures Exact(db')
  {
    forall id, n | id in db'.requests && Holding(db'.requests[id].state) && n in db'.requests[id].nodes
      ensures ReservedFor(db', n, id)
    {
      assert ReservedFor(db, n, id);
    }
  }

  lemma SaveKeepsTables(db: Db, dcn: string, r: Request, user: string, project: string, action: Action, release: bool)
    requires TablesSound(db) && r.id in db.requests
    requires LawfulSave(db.requests[r.id], r, user, project, action, release, dcn)
    ensures TablesSound(Save(db, r, user, project, action, release))
  {
    SaveKeepsExact(db, Save(db, r, user, project, action, release), r, release);
  }

  lemma SaveKeepsSound(db: Db, dcn: string, r: Request, user: string, project: string, action: Action, release: bool)
    requires Sound(db, dcn) && r.id in db.requests
    requires LawfulSave(db.requests[r.id], r, user, project, action, release, dcn)
    ensures Sound(Save(db, r, user, project, action, release), dcn)
  {
    var db' := Save(db, r, user, project, action, release);
    SaveKeepsTables(db, dcn, r, user, project, action, release);
    ExtendTrail(db, db', Event(Some(db.requests[r.id]), r, user, project, action), dcn);
  }

  lemma RecordKeepsSound(db: Db, dcn: string, id: string, user: string, kind: string, node: string)
    requires Sound(db, dcn) && id in db.requests
    requires db.requests[id].state.Leased? && node in db.requests[id].nodes
    ensures Sound(Record(db, id, user, db.requests[id].projectId, OperationQueued(kind, node)), dcn)
  {
    var r := db.requests[id];
    var db' := Record(db, id, user, r.projectId, OperationQueued(kind, node));
    ExtendTrail(db, db', Event(Some(r), r, user, r.projectId, OperationQueued(kind, node)), dcn);
  }

  lemma SubmitKeepsSound(db: Db, dcn: string, op: Operation, key: Option<string>)
    requires Sound(db, dcn) && CanSubmit(db, op)
    requires op.requestId in db.requests && op.projectId == db.requests[op.requestId].projectId
    ensures Sound(Submit(db, op, key), dcn)
  {
  }

  /** Starting, finishing and failing an operation change nothing but its state and error. */
  lemma OperationUpdateKeepsSound(db: Db, db': Db, dcn: string)
    requires Sound(db, dcn)
    requires db' == db.(operations := db'.operations) && db'.operations.Keys == db.operations.Keys
    requires forall id | id in db.operations ::
               && db'.operations[id].(state := db.operations[id].state, error := db.operations[id].error)
                 == db.operations[id]
               && (db'.operations[id].Active() ==> db.operations[id].Active())
    ensures Sound(db', dcn)
  {
  }
}
