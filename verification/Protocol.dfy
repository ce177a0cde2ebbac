/**
 The service as a transition system. Any number of tasks are in flight; a task holds the copy of the
 request it read and the place it has reached. One step is one store transaction or one runtime call of
 one task, with the local work before it, or something the environment does. `Apply` is total: a step
 that is not enabled changes nothing, so a run is any sequence of steps whatever.
 */
module Protocol {
  import opened Base
  import opened Domain
  import opened Tables
  import opened Ironic

  /** What a task does next. */
  datatype Place =
    // the copy is read, nothing is saved yet
    | ToApprove
    | ToReject(text: string)
    | ToCancel
    | ToCheckOperations(expected: Option<int>)
    | ToRequestReturn
    | ToInsert(op: Operation, key: Option<string>)
    | ToRecord(queued: Operation)
    // the task has saved `approved` and carries the allocation through
    | ToStartAllocation
    | ToAssign(done: nat)
    | ToRecordAllocationFailure(text: string)
    // the task has saved `return_requested` and carries the return through
    | ToStartCleaning
    | ToCompleteReturn
    | ToClean(cleaned: nat)
    | ToClear(cleared: nat)
    | ToRecordCleaningFailure(text: string)

  datatype Task =
    | RequestTask(actor: Actor, item: Request, place: Place)
    | RunTask(op: Operation)
    | FinishTask(op: Operation, error: Option<string>)

  /** `issued` counts the runtime calls made for each operation. */
  datatype World = World(dcn: string, db: Db, fleet: Fleet, tasks: map<nat, Task>, issued: multiset<string>)

  datatype Input =
    | Nothing
    | Offers(candidates: seq<OfferCandidate>, now: int)
    | Answer(reply: Reply)

  datatype Step =
    | CreateRequest(actor: Actor, id: string, profile: string, quantity: int, purpose: string,
                    until: int, rack: Option<string>, key: Option<string>)
    | BeginApprove(k: nat, id: string, actor: Actor, expected: Option<int>)
    | BeginReject(k: nat, id: string, actor: Actor, expected: Option<int>, text: string)
    | BeginCancel(k: nat, id: string, actor: Actor, expected: Option<int>)
    | BeginReturn(k: nat, id: string, actor: Actor, expected: Option<int>)
    | BeginQueue(k: nat, id: string, actor: Actor, version: int, node: string, command: Command,
                 operationId: string, key: Option<string>)
    | BeginProcess(k: nat, operationId: string)
    | Continue(k: nat, input: Input)
    | Abandon(k: nat)
    | Restart
    | NodeChanges(n: string, condition: Condition)
    | NodeAppears(n: string, owner: Option<string>, condition: Condition)

  function NewRequest(actor: Actor, id: string, profile: string, quantity: int, purpose: string,
                      until: int, rack: Option<string>): Request {
    Request(id, actor.projectId, actor.userId, profile, quantity, purpose, until, rack,
            Submitted, [], None, None, 0)
  }

  predicate AsExpected(r: Request, expected: Option<int>) {
    expected.Some? ==> r.version == expected.value
  }

  /** `_require_lessee` */
  predicate MayOperate(r: Request, actor: Actor, node: string, version: int) {
    && r.version == version
    && actor.projectId == r.projectId
    && actor.CanOperate()
    && r.state.Leased? && node in r.nodes
  }

  function NewOperation(r: Request, actor: Actor, node: string, command: Command, id: string): Operation {
    Operation(id, r.id, r.projectId, actor.userId, node, command, Queued, None)
  }

  function End(w: World, k: nat): World {
    w.(tasks := w.tasks - {k})
  }

  function Go(w: World, k: nat, actor: Actor, item: Request, place: Place): World {
    w.(tasks := w.tasks[k := RequestTask(actor, item, place)])
  }

  /** A task whose first act is to read a request. */
  function Begin(w: World, k: nat, id: string, actor: Actor, expected: Option<int>, place: Place): World {
    if k in w.tasks || id !in w.db.requests || !AsExpected(w.db.requests[id], expected) then w
    else Go(w, k, actor, w.db.requests[id], place)
  }

  /** A save a task is about to make: what a domain method made of the copy, and where to go on. */
  datatype Plan = Plan(made: Result<Request>, action: Action, release: bool, next: Option<Place>)

  /** The save that comes next at a place, if a save comes next. */
  function PlannedSave(dcn: string, actor: Actor, item: Request, place: Place): Option<Plan> {
    match place
    case ToReject(text) => Some(Plan(item.Reject(actor, dcn, text), Action.Reject, false, None))
    case ToCancel => Some(Plan(item.Cancel(actor), Action.Cancel, false, None))
    case ToRequestReturn =>
      Some(Plan(item.RequestReturn(actor, dcn), AskedToReturn, false, Some(ToStartCleaning)))
    case ToStartAllocation =>
      Some(Plan(item.Transition(Approved, Allocating), AllocationStarted, false, Some(ToAssign(0))))
    case ToAssign(done) =>
      if done < |item.nodes| then None
      else Some(Plan(item.Transition(Allocating, Leased), AllocationCompleted, false, None))
    case ToRecordAllocationFailure(text) => Some(Plan(item.MarkError(text), AllocationFailed, false, None))
    case ToStartCleaning =>
      Some(Plan(item.Transition(ReturnRequested, Cleaning), CleaningStarted, false, Some(ToCompleteReturn)))
    case ToClear(cleared) =>
      if cleared < |item.nodes| then None
      else Some(Plan(item.Transition(Cleaning, Returned), CleaningCompleted, true, None))
    case ToRecordCleaningFailure(text) => Some(Plan(item.MarkError(text), Action.CleaningFailed, false, None))
    case _ => None
  }

  /** The save takes effect unless the domain method raised or somebody wrote the row in between;
      then the task goes on, or ends. */
  function SaveStep(w: World, k: nat, actor: Actor, item: Request, plan: Plan): World {
    if plan.made.Err? || !AtVersion(w.db, plan.made.value.id, item.version) then End(w, k)
    else
      var w' := w.(db := Save(w.db, plan.made.value, actor.userId, actor.projectId, plan.action, plan.release));
      if plan.next.None? then End(w', k) else Go(w', k, actor, plan.made.value, plan.next.value)
  }

  function ApproveStep(w: World, k: nat, actor: Actor, item: Request, candidates: seq<OfferCandidate>,
                       now: int): World {
    var made := item.Approve(actor, w.dcn, candidates, now);
    if made.Err? || !CanReserve(w.db, made.value, item.version) then End(w, k)
    else
      var w' := w.(db := Reserve(w.db, made.value, actor.userId, actor.projectId, Action.Approve));
      Go(w', k, actor, made.value, ToStartAllocation)
  }

  function AfterAssign(outcome: Outcome, done: nat): Place {
    if outcome.error.None? then ToAssign(done + 1) else ToRecordAllocationFailure(outcome.error.value)
  }

  function AfterReturnCall(outcome: Outcome, next: Place): Place {
    if outcome.error.None? then next else ToRecordCleaningFailure(outcome.error.value)
  }

  /** The nodes are cleaned one by one and only then cleared. */
  function NextClean(item: Request, done: nat): Place {
    if done < |item.nodes| then ToClean(done) else ToClear(0)
  }

  function InsertStep(w: World, k: nat, actor: Actor, item: Request, op: Operation, key: Option<string>): World {
    if OperationKeyBound(w.db, op, key) then
      var id := w.db.operationKeys[KeyOf(op, key.value)];
      if id in w.db.operations && SameSubmission(w.db.operations[id], op) && id == op.id
      then Go(w, k, actor, item, ToRecord(op)) else End(w, k)
    else if CanSubmit(w.db, op) then
      Go(w.(db := Submit(w.db, op, key)), k, actor, item, ToRecord(op))
    else End(w, k)
  }

  function Advance(w: World, k: nat, actor: Actor, item: Request, place: Place, input: Input): World {
    var plan := PlannedSave(w.dcn, actor, item, place);
    if plan.Some? then SaveStep(w, k, actor, item, plan.value)
    else if place.ToAssign? || place.ToClean? || place.ToClear? then
      if input.Answer? then CallStep(w, k, actor, item, place, input.reply) else w
    else OtherStep(w, k, actor, item, place, input)
  }

  /** A runtime call of a lease task. */
  function CallStep(w: World, k: nat, actor: Actor, item: Request, place: Place, reply: Reply): World {
    match place
    case ToAssign(done) =>
      if done >= |item.nodes| then w
      else
        var outcome := AssignLessee(w.fleet, item.nodes[done], item.projectId, w.dcn, reply);
        Go(w.(fleet := outcome.fleet), k, actor, item, AfterAssign(outcome, done))
    case ToClean(cleaned) =>
      if cleaned >= |item.nodes| then w
      else
        var outcome := ReturnAndClean(w.fleet, item.nodes[cleaned], reply);
        Go(w.(fleet := outcome.fleet), k, actor, item, AfterReturnCall(outcome, NextClean(item, cleaned + 1)))
    case ToClear(cleared) =>
      if cleared >= |item.nodes| then w
      else
        var outcome := ClearLessee(w.fleet, item.nodes[cleared], reply);
        Go(w.(fleet := outcome.fleet), k, actor, item, AfterReturnCall(outcome, ToClear(cleared + 1)))
    case _ => w
  }

  /** Everything else a lease task does. */
  function OtherStep(w: World, k: nat, actor: Actor, item: Request, place: Place, input: Input): World {
    match place
    case ToApprove =>
      if input.Offers? then ApproveStep(w, k, actor, item, input.candidates, input.now) else w
    case ToCheckOperations(expected) =>
      if RequestBusy(w.db, item.id) || !AsExpected(item, expected) then End(w, k)
      else Go(w, k, actor, item, ToRequestReturn)
    case ToInsert(op, key) =>
      InsertStep(w, k, actor, item, op, key)
    case ToRecord(op) =>
      RecordStep(w, k, actor, item, op)
    case ToCompleteReturn =>
      if item.id in w.db.requests && w.db.requests[item.id].state.Cleaning?
      then Go(w, k, actor, w.db.requests[item.id], NextClean(w.db.requests[item.id], 0))
      else End(w, k)
    case _ => w
  }

  function RecordStep(w: World, k: nat, actor: Actor, item: Request, op: Operation): World {
    if AtVersion(w.db, item.id, item.version)
    then End(w.(db := Record(w.db, item.id, actor.userId, actor.projectId,
                             OperationQueued(op.command.Kind(), op.node))), k)
    else End(w, k)
  }

  function StartStep(w: World, k: nat, id: string): World {
    if k in w.tasks || !InOperationState(w.db, id, Queued) then w
    else
      var db := Start(w.db, id);
      w.(db := db, tasks := w.tasks[k := RunTask(db.operations[id])])
  }

  function RunStep(w: World, k: nat, op: Operation, reply: Reply): World {
    var outcome := RunCommand(w.fleet, op, w.dcn, reply);
    w.(fleet := outcome.fleet, tasks := w.tasks[k := FinishTask(op, outcome.error)],
       issued := if op.command.OtherCommand? then w.issued else w.issued + multiset{op.id})
  }

  function FinishStep(w: World, k: nat, op: Operation, error: Option<string>): World {
    if InOperationState(w.db, op.id, Running) then End(w.(db := Finish(w.db, op.id, error)), k) else End(w, k)
  }

  function ContinueStep(w: World, k: nat, input: Input): World {
    if k !in w.tasks then w
    else match w.tasks[k]
      case RequestTask(actor, item, place) => Advance(w, k, actor, item, place, input)
      case RunTask(op) => if input.Answer? then RunStep(w, k, op, input.reply) else w
      case FinishTask(op, error) => FinishStep(w, k, op, error)
  }

  function CreateStep(w: World, r: Request, key: Option<string>): World {
    if RequestKeyBound(w.db, r.projectId, key) || !CanCreate(w.db, r) then w
    else w.(db := Create(w.db, r, key))
  }

  /** Only return_and_clean makes a node that a tenant has used available again. */
  function ChangeStep(w: World, n: string, c: Condition): World {
    if n !in w.fleet.nodes
       || (n in w.fleet.dirty && !w.fleet.nodes[n].condition.provision.Available? && c.provision.Available?) then w
    else w.(fleet := SetCondition(w.fleet, n, c))
  }

  function AppearStep(w: World, n: string, owner: Option<string>, c: Condition): World {
    if n in w.fleet.nodes then w
    else w.(fleet := w.fleet.(nodes := w.fleet.nodes[n := Node(owner, None, c)]))
  }

  function Apply(w: World, s: Step): World {
    match s
    case CreateRequest(actor, id, profile, quantity, purpose, until, rack, key) =>
      CreateStep(w, NewRequest(actor, id, profile, quantity, purpose, until, rack), key)
    case BeginApprove(k, id, actor, expected) => Begin(w, k, id, actor, expected, ToApprove)
    case BeginReject(k, id, actor, expected, text) => Begin(w, k, id, actor, expected, ToReject(text))
    case BeginCancel(k, id, actor, expected) => Begin(w, k, id, actor, expected, ToCancel)
    case BeginReturn(k, id, actor, expected) => Begin(w, k, id, actor, None, ToCheckOperations(expected))
    case BeginQueue(k, id, actor, version, node, command, operationId, key) =>
      if id in w.db.requests && MayOperate(w.db.requests[id], actor, node, version)
      then Begin(w, k, id, actor, None,
                 ToInsert(NewOperation(w.db.requests[id], actor, node, command, operationId), key))
      else w
    case BeginProcess(k, operationId) => StartStep(w, k, operationId)
    case Continue(k, input) => ContinueStep(w, k, input)
    case Abandon(k) => End(w, k)
    case Restart => w.(db := Reopen(w.db), tasks := map[])
    case NodeChanges(n, condition) => ChangeStep(w, n, condition)
    case NodeAppears(n, owner, condition) => AppearStep(w, n, owner, condition)
  }

  function Run(w: World, steps: seq<Step>): World
    decreases |steps|
  {
    if steps == [] then w else Run(Apply(w, steps[0]), steps[1..])
  }

  /** An empty store, no task, and a fleet without lessees that no tenant has used. */
  ghost predicate Initial(w: World) {
    && w.db == EMPTY && w.tasks == map[] && w.issued == multiset{} && w.fleet.dirty == {}
    && forall n | n in w.fleet.nodes :: w.fleet.nodes[n].lessee == None
  }

  lemma {:induction false} RunConcat(w: World, s: seq<Step>, t: seq<Step>)
    ensures Run(w, s + t) == Run(Run(w, s), t)
    decreases |s|
  {
    if s == [] {
      assert s + t == t;
    } else {
      assert (s + t)[0] == s[0] && (s + t)[1..] == s[1..] + t;
      RunConcat(Apply(w, s[0]), s[1..], t);
    }
  }

  lemma RunThenStep(w: World, steps: seq<Step>, s: Step)
    ensures Run(w, steps + [s]) == Apply(Run(w, steps), s)
  {
    RunConcat(w, steps, [s]);
    assert [s][1..] == [];
  }
}
