/** Queueing an operation against returning its lease: when the two interleave badly, exactly. */
module ReturnRace {
  import opened Base
  import opened Domain
  import opened Tables
  import opened Protocol
  import opened Invariant
  import opened Steps
  import opened Theorems
  import opened OperationTheorems

  /** Every active operation runs on a node that a leased request of its project holds. */
  ghost predicate Settled(db: Db) {
    forall id | id in db.operations && db.operations[id].Active() :: Belongs(db, db.operations[id])
  }

  predicate Belongs(db: Db, op: Operation) {
    && op.requestId in db.requests
    && db.requests[op.requestId].state.Leased?
    && db.requests[op.requestId].projectId == op.projectId
    && op.node in db.requests[op.requestId].nodes
  }

  /** Task t is about to insert an operation although its request has left `leased`. */
  predicate InsertRaces(db: Db, t: Task)
    requires t.RequestTask? && t.place.ToInsert?
  {
    && !OperationKeyBound(db, t.place.op, t.place.key) && CanSubmit(db, t.place.op)
    && !(t.item.id in db.requests && db.requests[t.item.id].state.Leased?)
  }

  /** Task t is about to save a return although an operation of the request has become active. */
  predicate ReturnRaces(w: World, t: Task)
    requires t.RequestTask?
  {
    && t.item.RequestReturn(t.actor, w.dcn).Ok? && AtVersion(w.db, t.item.id, t.item.version)
    && RequestBusy(w.db, t.item.id)
  }

  /** The step loses the race between queueing an operation and returning its lease. */
  predicate Races(w: World, s: Step) {
    s.Continue? && s.k in w.tasks && w.tasks[s.k].RequestTask?
    && match w.tasks[s.k].place
       case ToInsert(_, _) => InsertRaces(w.db, w.tasks[s.k])
       case ToRequestReturn => ReturnRaces(w, w.tasks[s.k])
       case _ => false
  }

  /** No row becomes `return_requested`. */
  ghost predicate NoNewReturn(db: Db, db': Db) {
    forall id | id in db.requests && id in db'.requests && db'.requests[id].state.ReturnRequested? ::
      db.requests[id].state.ReturnRequested?
  }

  lemma SaveWritesOneRow(w: World, k: nat, actor: Actor, item: Request, plan: Plan)
    ensures var requests := SaveStep(w, k, actor, item, plan).db.requests;
            requests == w.db.requests
            || (plan.made.Ok? && requests == w.db.requests[plan.made.value.id := plan.made.value])
  {
  }

  lemma OneRowMakesNoReturn(db: Db, db': Db, made: Result<Request>)
    requires db'.requests == db.requests
             || (made.Ok? && db'.requests == db.requests[made.value.id := made.value]
                 && !made.value.state.ReturnRequested?)
    ensures NoNewReturn(db, db')
  {
  }

  lemma ApproveMakesNoReturn(w: World, k: nat, candidates: seq<OfferCandidate>, now: int)
    requires k in w.tasks && w.tasks[k].RequestTask?
    ensures NoNewReturn(w.db, ApproveStep(w, k, w.tasks[k].actor, w.tasks[k].item, candidates, now).db)
  {
  }

  lemma AdvanceMakesNoReturn(w: World, k: nat, input: Input)
    requires k in w.tasks && w.tasks[k].RequestTask? && !w.tasks[k].place.ToRequestReturn?
    ensures var t := w.tasks[k]; NoNewReturn(w.db, Advance(w, k, t.actor, t.item, t.place, input).db)
  {
    var t := w.tasks[k];
    var plan := PlannedSave(w.dcn, t.actor, t.item, t.place);
    if plan.Some? {
      PlanKeepsContract(w.dcn, t.actor, t.item, t.place);
      SaveWritesOneRow(w, k, t.actor, t.item, plan.value);
      OneRowMakesNoReturn(w.db, SaveStep(w, k, t.actor, t.item, plan.value).db, plan.value.made);
    } else if t.place.ToApprove? && input.Offers? {
      ApproveMakesNoReturn(w, k, input.candidates, input.now);
    }
  }

  /** An operation that belongs keeps belonging, unless its own request asks to be returned. */
  lemma BelongingIsKept(w: World, s: Step, op: Operation)
    requires Inv(w) && Belongs(w.db, op)
    ensures Belongs(Apply(w, s).db, op) || (op.requestId in Apply(w, s).db.requests
                                            && Apply(w, s).db.requests[op.requestId].state.ReturnRequested?)
  {
    StepsAreTransitions(w, s, op.requestId);
  }

  lemma ReturnChangesOneRow(w: World, k: nat, input: Input)
    requires k in w.tasks && w.tasks[k].RequestTask? && w.tasks[k].place.ToRequestReturn?
    ensures var t := w.tasks[k];
            var db := Apply(w, Continue(k, input)).db;
            if t.item.RequestReturn(t.actor, w.dcn).Ok? && AtVersion(w.db, t.item.id, t.item.version)
            then db.requests == w.db.requests[t.item.id := t.item.RequestReturn(t.actor, w.dcn).value]
                 && db.operations == w.db.operations
            else db == w.db
  {
  }

  /** The step inserts operation `op` for task t. */
  ghost predicate Inserts(w: World, s: Step, op: Operation) {
    && s.Continue? && s.k in w.tasks && w.tasks[s.k].RequestTask? && w.tasks[s.k].place.ToInsert?
    && op == w.tasks[s.k].place.op
    && !OperationKeyBound(w.db, op, w.tasks[s.k].place.key) && CanSubmit(w.db, op)
  }

  lemma InsertEffect(w: World, k: nat, actor: Actor, item: Request, op: Operation, key: Option<string>)
    ensures var db := InsertStep(w, k, actor, item, op, key).db;
            if !OperationKeyBound(w.db, op, key) && CanSubmit(w.db, op)
            then db.operations == w.db.operations[op.id := op] && db.requests == w.db.requests
            else db == w.db
    ensures !OperationKeyBound(w.db, op, key) && CanSubmit(w.db, op) ==>
              InsertStep(w, k, actor, item, op, key).tasks == w.tasks[k := RequestTask(actor, item, ToRecord(op))]
  {
  }

  /** Only an insertion makes a new operation row, and it changes no request. */
  lemma NewOperations(w: World, w': World, s: Step, id: string)
    requires w' == Apply(w, s) && id in w'.db.operations && id !in w.db.operations
    ensures Inserts(w, s, w'.db.operations[id]) && w'.db.requests == w.db.requests
  {
    if s.Continue? && s.k in w.tasks && w.tasks[s.k].RequestTask? {
      var t := w.tasks[s.k];
      match t.place
      case ToInsert(op, key) => InsertEffect(w, s.k, t.actor, t.item, op, key);
      case _ => AdvanceKeepsSubmissions(w, s.k, s.input);
    }
  }

  /** Steps other than the saving of a return make no row `return_requested`. */
  lemma OnlyReturnsReturn(w: World, w': World, s: Step)
    requires w' == Apply(w, s)
    requires !(s.Continue? && s.k in w.tasks && w.tasks[s.k].RequestTask? && w.tasks[s.k].place.ToRequestReturn?)
    ensures NoNewReturn(w.db, w'.db)
  {
    if s.Continue? && s.k in w.tasks && w.tasks[s.k].RequestTask? {
      AdvanceMakesNoReturn(w, s.k, s.input);
    }
  }

  /** What a task may insert runs for a request whose row is the leased copy, if the row is still leased. */
  lemma InsertionBelongs(w: World, k: nat)
    requires Inv(w) && k in w.tasks && w.tasks[k].RequestTask? && w.tasks[k].place.ToInsert?
    ensures var op, item := w.tasks[k].place.op, w.tasks[k].item;
            && op.Active() && op.requestId == item.id && item.id in w.db.requests
            && (Belongs(w.db, op) <==> w.db.requests[item.id].state.Leased?)
  {
    assert CopyFits(w.db.requests, w.tasks[k]) && Authorised(w.tasks[k], w.dcn);
  }

  /** A quiet step does not make the request of an active operation `return_requested`. */
  lemma QuietStepReturnsNoBusyRequest(w: World, w': World, s: Step, id: string)
    requires w' == Apply(w, s) && !Races(w, s)
    requires id in w.db.operations && w.db.operations[id].Active() && Belongs(w.db, w.db.operations[id])
    ensures var requestId := w.db.operations[id].requestId;
            requestId in w'.db.requests ==> !w'.db.requests[requestId].state.ReturnRequested?
  {
    if s.Continue? && s.k in w.tasks && w.tasks[s.k].RequestTask? && w.tasks[s.k].place.ToRequestReturn? {
      ReturnChangesOneRow(w, s.k, s.input);
    } else {
      OnlyReturnsReturn(w, w', s);
    }
  }

  lemma KeptOperationBelongs(w: World, w': World, s: Step, id: string)
    requires Inv(w) && w' == Apply(w, s) && !Races(w, s)
    requires id in w.db.operations && w.db.operations[id].Active() && Belongs(w.db, w.db.operations[id])
    ensures id in w'.db.operations && Belongs(w'.db, w'.db.operations[id])
  {
    QuietStepReturnsNoBusyRequest(w, w', s, id);
    OperationsProgress(w, s, id);
    BelongingIsKept(w, s, w.db.operations[id]);
  }

  lemma QuietStepKeepsSettled(w: World, s: Step)
    requires Inv(w) && Settled(w.db) && !Races(w, s)
    ensures Settled(Apply(w, s).db)
  {
    var w' := Apply(w, s);
    forall id | id in w'.db.operations && w'.db.operations[id].Active()
      ensures Belongs(w'.db, w'.db.operations[id])
    {
      if id in w.db.operations {
        OperationsProgress(w, s, id);
        KeptOperationBelongs(w, w', s, id);
      } else {
        NewOperations(w, w', s, id);
        InsertionBelongs(w, s.k);
      }
    }
  }

  lemma RaceUnsettles(w: World, s: Step)
    requires Inv(w) && Settled(w.db) && Races(w, s)
    ensures !Settled(Apply(w, s).db)
  {
    var w' := Apply(w, s);
    var t := w.tasks[s.k];
    if t.place.ToInsert? {
      InsertEffect(w, s.k, t.actor, t.item, t.place.op, t.place.key);
      InsertionBelongs(w, s.k);
      assert !Belongs(w'.db, w'.db.operations[t.place.op.id]);
    } else {
      ReturnChangesOneRow(w, s.k, s.input);
      var id :| id in w.db.operations && w.db.operations[id].requestId == t.item.id && w.db.operations[id].Active();
      assert !Belongs(w'.db, w'.db.operations[id]);
    }
  }

  /** The exact condition, step by step: active operations stay on leased nodes of their own request
      if and only if the step does not lose the race. */
  lemma SettledExactlyWithoutRaces(w: World, s: Step)
    requires Inv(w) && Settled(w.db)
    ensures Settled(Apply(w, s).db) <==> !Races(w, s)
  {
    if Races(w, s) { RaceUnsettles(w, s); } else { QuietStepKeepsSettled(w, s); }
  }

  /** No step of the run loses the race. */
  ghost predicate RaceFree(w: World, steps: seq<Step>)
    decreases |steps|
  {
    steps == [] || (!Races(w, steps[0]) && RaceFree(Apply(w, steps[0]), steps[1..]))
  }

  lemma {:induction false} RaceFreeRunsStaySettled(w: World, steps: seq<Step>)
    requires Inv(w) && Settled(w.db) && RaceFree(w, steps)
    ensures Settled(Run(w, steps).db)
    decreases |steps|
  {
    if steps != [] {
      QuietStepKeepsSettled(w, steps[0]);
      ApplyKeepsInv(w, steps[0]);
      RaceFreeRunsStaySettled(Apply(w, steps[0]), steps[1..]);
    }
  }

  lemma PrefixesAfter(w: World, steps: seq<Step>)
    requires steps != []
    ensures forall n: int | 0 < n <= |steps| :: Run(w, steps[..n]) == Run(Apply(w, steps[0]), steps[1..][..n - 1])
  {
    forall n: int | 0 < n <= |steps| ensures Run(w, steps[..n]) == Run(Apply(w, steps[0]), steps[1..][..n - 1]) {
      assert steps[..n][1..] == steps[1..][..n - 1];
    }
  }

  /** The exact condition for whole runs: active operations stay on their leases all along if and only if no step
      loses the race. */
  lemma {:induction false} SettledAllAlongExactly(w: World, steps: seq<Step>)
    requires Inv(w) && Settled(w.db)
    ensures RaceFree(w, steps) <==> forall n | 0 <= n <= |steps| :: Settled(Run(w, steps[..n]).db)
    decreases |steps|
  {
    assert Run(w, steps[..0]) == w;
    if steps != [] {
      var w' := Apply(w, steps[0]);
      SettledExactlyWithoutRaces(w, steps[0]);
      PrefixesAfter(w, steps);
      assert Run(w', steps[1..][..0]) == w';
      if Races(w, steps[0]) {
        assert Run(w, steps[..1]) == w';
      } else {
        ApplyKeepsInv(w, steps[0]);
        SettledAllAlongExactly(w', steps[1..]);
        assert forall n: int | 0 < n <= |steps| :: Run(w, steps[..n]) == Run(w', steps[1..][..n - 1]);
        if forall n | 0 <= n <= |steps| :: Settled(Run(w, steps[..n]).db) {
          forall n | 0 <= n <= |steps[1..]| ensures Settled(Run(w', steps[1..][..n]).db) {
            assert Run(w, steps[..n + 1]) == Run(w', steps[1..][..n + 1 - 1]);
          }
        }
      }
    }
  }

  /** So on such a run no request is being returned or cleaned while an operation of it is active. */
  lemma NoOperationWhileReturning(start: World, steps: seq<Step>, requestId: string)
    requires Initial(start) && RaceFree(start, steps)
    requires var db := Run(start, steps).db; requestId in db.requests && !db.requests[requestId].state.Leased?
    ensures !RequestBusy(Run(start, steps).db, requestId)
  {
    InitialInv(start);
    RaceFreeRunsStaySettled(start, steps);
  }

  // ---- a run that loses the race ----

  /** Six steps of a return (task k) and a queueing (task l) that interleave badly. */
  function BadInterleaving(k: nat, l: nat, r: Request, actor: Actor, node: string, command: Command,
                           operationId: string): seq<Step> {
    [BeginReturn(k, r.id, actor, None), Continue(k, Nothing),
     BeginQueue(l, r.id, actor, r.version, node, command, operationId, None),
     Continue(k, Nothing), Continue(k, Nothing), Continue(l, Nothing)]
  }

  lemma SaveLands(w: World, k: nat, actor: Actor, item: Request, plan: Plan)
    requires plan.made.Ok? && plan.made.value.id == item.id && AtVersion(w.db, item.id, item.version) && plan.next.Some?
    ensures var w' := SaveStep(w, k, actor, item, plan);
            && w'.db.requests == w.db.requests[item.id := plan.made.value] && w'.db.operations == w.db.operations
            && w'.tasks == w.tasks[k := RequestTask(actor, plan.made.value, plan.next.value)]
  {
  }

  /** The return has checked for active operations, and the queueing has read the leased request. */
  lemma BothHaveRead(w: World, k: nat, l: nat, id: string, actor: Actor, node: string, command: Command,
                     operationId: string)
    requires id in w.db.requests && w.db.requests[id].id == id && k !in w.tasks && l !in w.tasks && k != l
    requires MayOperate(w.db.requests[id], actor, node, w.db.requests[id].version) && !RequestBusy(w.db, id)
    ensures var r := w.db.requests[id];
            Run(w, BadInterleaving(k, l, r, actor, node, command, operationId)[..3])
            == w.(tasks := w.tasks[k := RequestTask(actor, r, ToRequestReturn)]
                                  [l := RequestTask(actor, r,
                                    ToInsert(NewOperation(r, actor, node, command, operationId), None))])
  {
    var r := w.db.requests[id];
    var steps := BadInterleaving(k, l, r, actor, node, command, operationId)[..3];
    assert steps[1..][1..][1..] == [];
    var w1 := Apply(w, steps[0]);
    assert w1 == w.(tasks := w.tasks[k := RequestTask(actor, r, ToCheckOperations(None))]);
    var w2 := Apply(w1, steps[1]);
    assert w2 == w.(tasks := w.tasks[k := RequestTask(actor, r, ToRequestReturn)]);
    assert Run(w, steps) == Run(w1, steps[1..]) == Run(w2, steps[1..][1..]) == Apply(w2, steps[2]);
  }

  /** Then the return goes into cleaning, and the queueing does not notice. */
  lemma ReturnWrites(w: World, k: nat, actor: Actor, r: Request)
    requires k in w.tasks && w.tasks[k] == RequestTask(actor, r, ToRequestReturn)
    requires r.id in w.db.requests && w.db.requests[r.id] == r && r.state.Leased? && actor.projectId == r.projectId
    ensures var w' := Run(w, [Continue(k, Nothing), Continue(k, Nothing)]);
            && r.id in w'.db.requests && w'.db.requests[r.id].state.Cleaning?
            && w'.db.operations == w.db.operations && w'.tasks - {k} == w.tasks - {k}
  {
    var steps := [Continue(k, Nothing), Continue(k, Nothing)];
    assert steps[1..][1..] == [];
    var asked := r.(state := ReturnRequested, version := r.version + 1);
    SaveLands(w, k, actor, r, PlannedSave(w.dcn, actor, r, ToRequestReturn).value);
    var w1 := Apply(w, steps[0]);
    assert w1.tasks == w.tasks[k := RequestTask(actor, asked, ToStartCleaning)] && w1.db.requests[r.id] == asked;
    SaveLands(w1, k, actor, asked, PlannedSave(w1.dcn, actor, asked, ToStartCleaning).value);
    assert Run(w, steps) == Run(w1, steps[1..]) == Apply(w1, steps[1]);
  }

  lemma BothWrite(w: World, k: nat, l: nat, actor: Actor, r: Request, op: Operation)
    requires k in w.tasks && w.tasks[k] == RequestTask(actor, r, ToRequestReturn) && k != l
    requires l in w.tasks && w.tasks[l] == RequestTask(actor, r, ToInsert(op, None))
    requires r.id in w.db.requests && w.db.requests[r.id] == r && r.state.Leased? && actor.projectId == r.projectId
    requires CanSubmit(w.db, op)
    ensures var w' := Run(w, [Continue(k, Nothing), Continue(k, Nothing), Continue(l, Nothing)]);
            && r.id in w'.db.requests && w'.db.requests[r.id].state.Cleaning?
            && op.id in w'.db.operations && w'.db.operations[op.id] == op
            && l in w'.tasks && w'.tasks[l] == RequestTask(actor, r, ToRecord(op))
  {
    var first := [Continue(k, Nothing), Continue(k, Nothing)];
    ReturnWrites(w, k, actor, r);
    var w2 := Run(w, first);
    assert l in w2.tasks - {k} && w2.tasks[l] == (w2.tasks - {k})[l] == (w.tasks - {k})[l];
    InsertEffect(w2, l, actor, r, op, None);
    RunConcat(w, first, [Continue(l, Nothing)]);
    assert first + [Continue(l, Nothing)] == [Continue(k, Nothing), Continue(k, Nothing), Continue(l, Nothing)];
    assert [Continue(l, Nothing)][1..] == [];
    assert Run(w2, [Continue(l, Nothing)]) == Apply(w2, Continue(l, Nothing));
  }

  /** From every state with an idle leased request, a return and a queueing of its own project can end
      with the request in cleaning and a queued operation on one of its nodes. */
  lemma RaceCanBeLost(w: World, k: nat, l: nat, id: string, actor: Actor, node: string, command: Command,
                      operationId: string)
    requires Inv(w) && id in w.db.requests && k !in w.tasks && l !in w.tasks && k != l
    requires MayOperate(w.db.requests[id], actor, node, w.db.requests[id].version)
    requires !RequestBusy(w.db, id) && !NodeBusy(w.db, node) && operationId !in w.db.operations
    ensures var w' := Run(w, BadInterleaving(k, l, w.db.requests[id], actor, node, command, operationId));
            && id in w'.db.requests && w'.db.requests[id].state.Cleaning?
            && operationId in w'.db.operations
            && w'.db.operations[operationId] == NewOperation(w.db.requests[id], actor, node, command, operationId)
            && l in w'.tasks && w'.tasks[l].RequestTask? && w'.tasks[l].place == ToRecord(w'.db.operations[operationId])
  {
    var r := w.db.requests[id];
    var steps := BadInterleaving(k, l, r, actor, node, command, operationId);
    BothHaveRead(w, k, l, id, actor, node, command, operationId);
    BothWrite(Run(w, steps[..3]), k, l, actor, r, NewOperation(r, actor, node, command, operationId));
    assert steps == steps[..3] + [Continue(k, Nothing), Continue(k, Nothing), Continue(l, Nothing)];
    RunConcat(w, steps[..3], [Continue(k, Nothing), Continue(k, Nothing), Continue(l, Nothing)]);
  }
}
