/** With queueing and the beginning of a return each in one go, operations and returns never meet. */
module AtomicRuns {
  import opened Base
  import opened Domain
  import opened Tables
  import opened Ledger
  import opened Protocol
  import opened Invariant
  import opened Steps
  import opened Theorems
  import opened ReturnRace

  /** Not between the check and the write of a return or a queueing. */
  predicate AtRest(t: Task) {
    t.RequestTask? ==> !t.place.ToCheckOperations? && !t.place.ToRequestReturn? && !t.place.ToInsert?
  }

  ghost predicate Quiet(tasks: map<nat, Task>) {
    forall k | k in tasks :: AtRest(tasks[k])
  }

  /** What is scheduled in one go: the check and the first write of a return, the check and the insertion of
      a queueing, or any single step that begins neither. */
  datatype Block =
    | WholeReturn(k: nat, id: string, actor: Actor, expected: Option<int>)
    | WholeQueue(k: nat, id: string, actor: Actor, version: int, node: string, command: Command,
                 operationId: string, key: Option<string>)
    | Single(step: Step)

  function StepsOf(b: Block): seq<Step> {
    match b
    case WholeReturn(k, id, actor, expected) =>
      [BeginReturn(k, id, actor, expected), Continue(k, Nothing), Continue(k, Nothing)]
    case WholeQueue(k, id, actor, version, node, command, operationId, key) =>
      [BeginQueue(k, id, actor, version, node, command, operationId, key), Continue(k, Nothing)]
    case Single(s) => if s.BeginReturn? || s.BeginQueue? then [] else [s]
  }

  function Flatten(blocks: seq<Block>): seq<Step> {
    if blocks == [] then [] else StepsOf(blocks[0]) + Flatten(blocks[1..])
  }

  lemma {:induction false} RaceFreeConcat(w: World, s: seq<Step>, t: seq<Step>)
    requires RaceFree(w, s) && RaceFree(Run(w, s), t)
    ensures RaceFree(w, s + t)
    decreases |s|
  {
    if s == [] {
      assert s + t == t;
    } else {
      assert (s + t)[0] == s[0] && (s + t)[1..] == s[1..] + t;
      RaceFreeConcat(Apply(w, s[0]), s[1..], t);
    }
  }

  // ---- single steps ----

  lemma SaveRests(w: World, k: nat, actor: Actor, item: Request, plan: Plan)
    requires plan.next.Some? ==> AtRest(RequestTask(actor, item, plan.next.value))
    ensures var tasks := SaveStep(w, k, actor, item, plan).tasks; k in tasks ==> AtRest(tasks[k])
  {
  }

  lemma AdvanceRests(w: World, k: nat, input: Input)
    requires k in w.tasks && w.tasks[k].RequestTask?
    requires AtRest(w.tasks[k]) || w.tasks[k].place.ToRequestReturn? || w.tasks[k].place.ToInsert?
    ensures var t := w.tasks[k];
            var tasks := Advance(w, k, t.actor, t.item, t.place, input).tasks;
            k in tasks ==> AtRest(tasks[k]) || tasks[k] == t
  {
    var t := w.tasks[k];
    var plan := PlannedSave(w.dcn, t.actor, t.item, t.place);
    if plan.Some? { SaveRests(w, k, t.actor, t.item, plan.value); }
  }

  lemma ContinueRests(w: World, k: nat, input: Input)
    requires Quiet(w.tasks)
    ensures Quiet(Apply(w, Continue(k, input)).tasks) && !Races(w, Continue(k, input))
  {
    if k in w.tasks && w.tasks[k].RequestTask? {
      var t := w.tasks[k];
      AdvanceRests(w, k, input);
      AdvanceChangesItsTask(w, k, t.actor, t.item, t.place, input);
    }
  }

  lemma StepRests(w: World, s: Step)
    requires Quiet(w.tasks) && !s.BeginReturn? && !s.BeginQueue?
    ensures Quiet(Apply(w, s).tasks) && !Races(w, s)
  {
    if s.Continue? { ContinueRests(w, s.k, s.input); }
  }

  // ---- blocks ----

  lemma CheckedReturnRests(w: World, k: nat, actor: Actor, r: Request)
    requires Quiet(w.tasks - {k}) && k in w.tasks && w.tasks[k] == RequestTask(actor, r, ToRequestReturn)
    requires !RequestBusy(w.db, r.id)
    ensures Quiet(Apply(w, Continue(k, Nothing)).tasks) && !Races(w, Continue(k, Nothing))
  {
    var w' := Apply(w, Continue(k, Nothing));
    var plan := PlannedSave(w.dcn, actor, r, ToRequestReturn).value;
    SaveRests(w, k, actor, r, plan);
    assert w' == SaveStep(w, k, actor, r, plan);
    AdvanceChangesItsTask(w, k, actor, r, ToRequestReturn, Nothing);
    forall l | l in w'.tasks ensures AtRest(w'.tasks[l]) {
      if l != k { assert l in w.tasks - {k} && (w.tasks - {k})[l] == w'.tasks[l]; }
    }
  }

  lemma TwoSteps(w: World, s: Step, t: Step)
    requires !Races(w, s) && !Races(Apply(w, s), t)
    ensures RaceFree(w, [s, t]) && Run(w, [s, t]) == Apply(Apply(w, s), t)
  {
    assert [s, t][1..] == [t] && [t][1..] == [];
    assert Run(Apply(w, s), [t]) == Apply(Apply(w, s), t);
  }

  lemma ThreeSteps(w: World, s: Step, t: Step, u: Step)
    requires !Races(w, s) && !Races(Apply(w, s), t) && !Races(Apply(Apply(w, s), t), u)
    ensures RaceFree(w, [s, t, u]) && Run(w, [s, t, u]) == Apply(Apply(Apply(w, s), t), u)
  {
    TwoSteps(Apply(w, s), t, u);
    assert [s, t, u][1..] == [t, u];
  }

  lemma ReturnRests(w: World, k: nat, id: string, actor: Actor, expected: Option<int>)
    requires Quiet(w.tasks)
    ensures var steps := StepsOf(WholeReturn(k, id, actor, expected));
            RaceFree(w, steps) && Quiet(Run(w, steps).tasks)
  {
    var begin, next := BeginReturn(k, id, actor, expected), Continue(k, Nothing);
    var w1 := Apply(w, begin);
    var w2 := Apply(w1, next);
    if k in w.tasks || id !in w.db.requests {
      assert w1 == w;
      ContinueRests(w1, k, Nothing);
      ContinueRests(w2, k, Nothing);
    } else {
      var r := w.db.requests[id];
      assert w1 == w.(tasks := w.tasks[k := RequestTask(actor, r, ToCheckOperations(expected))]);
      if RequestBusy(w.db, r.id) || !AsExpected(r, expected) {
        assert w2.tasks == w.tasks;
        ContinueRests(w2, k, Nothing);
      } else {
        assert w2 == w.(tasks := w.tasks[k := RequestTask(actor, r, ToRequestReturn)]);
        assert w2.tasks - {k} == w.tasks - {k};
        CheckedReturnRests(w2, k, actor, r);
      }
    }
    ThreeSteps(w, begin, next, next);
  }

  lemma InsertedRests(w: World, w1: World, k: nat, actor: Actor, r: Request, place: Place)
    requires Quiet(w.tasks) && place.ToInsert? && w1 == w.(tasks := w.tasks[k := RequestTask(actor, r, place)])
    requires r.id in w.db.requests && w.db.requests[r.id].state.Leased?
    ensures Quiet(Apply(w1, Continue(k, Nothing)).tasks) && !Races(w1, Continue(k, Nothing))
  {
    AdvanceChangesItsTask(w1, k, actor, r, place, Nothing);
  }

  lemma QueueRests(w: World, b: Block)
    requires b.WholeQueue? && Quiet(w.tasks) && forall id | id in w.db.requests :: w.db.requests[id].id == id
    ensures RaceFree(w, StepsOf(b)) && Quiet(Run(w, StepsOf(b)).tasks)
  {
    var begin := BeginQueue(b.k, b.id, b.actor, b.version, b.node, b.command, b.operationId, b.key);
    var next := Continue(b.k, Nothing);
    var w1 := Apply(w, begin);
    if b.k in w.tasks || b.id !in w.db.requests || !MayOperate(w.db.requests[b.id], b.actor, b.node, b.version) {
      assert w1 == w;
      ContinueRests(w1, b.k, Nothing);
    } else {
      var r := w.db.requests[b.id];
      var place := ToInsert(NewOperation(r, b.actor, b.node, b.command, b.operationId), b.key);
      assert w1 == w.(tasks := w.tasks[b.k := RequestTask(b.actor, r, place)]);
      InsertedRests(w, w1, b.k, b.actor, r, place);
    }
    TwoSteps(w, begin, next);
  }

  lemma BlockRests(w: World, b: Block)
    requires Inv(w) && Quiet(w.tasks)
    ensures RaceFree(w, StepsOf(b)) && Quiet(Run(w, StepsOf(b)).tasks)
  {
    match b
    case WholeReturn(k, id, actor, expected) => ReturnRests(w, k, id, actor, expected);
    case WholeQueue(_, _, _, _, _, _, _, _) => QueueRests(w, b);
    case Single(s) =>
      if !s.BeginReturn? && !s.BeginQueue? {
        StepRests(w, s);
        assert [s][1..] == [];
      }
  }

  lemma {:induction false} AtomicRunsAreRaceFree(w: World, blocks: seq<Block>)
    requires Inv(w) && Quiet(w.tasks)
    ensures RaceFree(w, Flatten(blocks))
    decreases |blocks|
  {
    if blocks != [] {
      var steps := StepsOf(blocks[0]);
      BlockRests(w, blocks[0]);
      RunKeepsInv(w, steps);
      AtomicRunsAreRaceFree(Run(w, steps), blocks[1..]);
      RaceFreeConcat(w, steps, Flatten(blocks[1..]));
    }
  }

  /** Every queued or running operation belongs to a leased request and to a node reserved by it for the same
      project; so no request that is being returned or cleaned has an active operation. */
  lemma AtomicRunsKeepOperationsOnLeases(start: World, blocks: seq<Block>)
    requires Initial(start)
    ensures var db := Run(start, Flatten(blocks)).db;
            && (forall id | id in db.operations && db.operations[id].Active() ::
                  var op := db.operations[id];
                  Belongs(db, op) && ReservedFor(db, op.node, op.requestId)
                  && db.reservations[op.node].projectId == op.projectId)
            && (forall id | id in db.requests && !db.requests[id].state.Leased? :: !RequestBusy(db, id))
  {
    var steps := Flatten(blocks);
    InitialInv(start);
    AtomicRunsAreRaceFree(start, blocks);
    RaceFreeRunsStaySettled(start, steps);
    ReachableInv(start, steps);
    var db := Run(start, steps).db;
    forall id | id in db.operations && db.operations[id].Active()
      ensures var op := db.operations[id];
              Belongs(db, op) && ReservedFor(db, op.node, op.requestId)
              && db.reservations[op.node].projectId == op.projectId
    {
      assert Belongs(db, db.operations[id]);
    }
  }
}
