/**
 The coordinator as the service runs it, verified with every other task of the process interleaved at each
 await: its own code takes only steps of the protocol, so every theorem about runs holds of it.
 With `alone` no other task is scheduled, and the methods say exactly what they do to the store.
 */
module Coordinator {
  import opened Base
  import opened Domain
  import opened Tables
  import opened Ironic
  import opened Store
  import opened Runtime
  import opened Ledger
  import opened Protocol
  import opened Invariant
  import opened Steps
  import opened Theorems
  import opened OperationTheorems
  import opened Stranded
  import Order

  // ---- moments of a run ----

  /** The number of steps that task `me` has taken. */
  function Own(taken: seq<Step>, me: nat): nat {
    if taken == [] then 0
    else
      var last := |taken| - 1;
      Own(taken[..last], me) + if TaskOf(taken[last]) == Some(me) then 1 else 0
  }

  /** The steps of task `me` that begin a call, in their order: all its steps but those that continue one. */
  function Begun(taken: seq<Step>, me: nat): seq<Step> {
    if taken == [] then []
    else
      var last := |taken| - 1;
      Begun(taken[..last], me)
      + if TaskOf(taken[last]) == Some(me) && !taken[last].Continue? then [taken[last]] else []
  }

  lemma OwnNext(taken: seq<Step>, s: Step, me: nat)
    ensures Own(taken + [s], me) == Own(taken, me) + if TaskOf(s) == Some(me) then 1 else 0
    ensures Begun(taken + [s], me)
            == Begun(taken, me) + if TaskOf(s) == Some(me) && !s.Continue? then [s] else []
  {
    assert (taken + [s])[..|taken|] == taken;
  }

  /** From one moment to the other, task `me` has begun nothing. */
  predicate Continues(before: seq<Step>, after: seq<Step>, me: nat) {
    before <= after && Begun(after, me) == Begun(before, me)
  }

  /** From one moment to the other, task `me` has taken no step. */
  predicate Awaited(before: seq<Step>, after: seq<Step>, me: nat) {
    Continues(before, after, me) && Own(after, me) == Own(before, me)
  }

  lemma Earlier(a: seq<Step>, b: seq<Step>, c: seq<Step>)
    requires a <= b <= c
    ensures a <= c
  {
  }

  /** The moments of a return: it has read the request, it checks for active operations, and it first saves. */
  datatype Moments = Moments(seen: seq<Step>, checked: seq<Step>, reached: seq<Step>) {
    predicate Between(before: seq<Step>, after: seq<Step>) {
      before <= seen <= checked <= reached <= after
    }
  }

  lemma ReachedDbIsConsistent(start: World, steps: seq<Step>)
    requires Initial(start)
    ensures Consistent(Run(start, steps).db)
  {
    ReachableInv(start, steps);
    SoundIsConsistent(Run(start, steps).db, Run(start, steps).dcn);
  }

  /** The copy of a task that carries a request is the row. */
  lemma ReachedOwner(start: World, steps: seq<Step>, k: nat)
    requires Initial(start)
    requires var w := Run(start, steps);
             k in w.tasks && w.tasks[k].RequestTask? && Carries(w.tasks[k].place).Some?
    ensures var w := Run(start, steps);
            var item := w.tasks[k].item;
            AtVersion(w.db, item.id, item.version) && w.db.requests[item.id] == item && WellFormed(item)
            && item.state == Carries(w.tasks[k].place).value
  {
    ReachableInv(start, steps);
    CurrentCopy(Run(start, steps), k);
  }

  /** The row of a holding request has its nodes reserved. */
  lemma ReachedReservations(start: World, steps: seq<Step>, id: string)
    requires Initial(start)
    requires var db := Run(start, steps).db; id in db.requests && Holding(db.requests[id].state)
    ensures var db := Run(start, steps).db; forall n | n in db.requests[id].nodes :: ReservedFor(db, n, id)
  {
    ReachableInv(start, steps);
  }

  /** The nodes that an allocation has passed have the lessee, however long it waits. */
  lemma ReachedProgress(start: World, steps: seq<Step>, k: nat)
    requires Initial(start)
    requires var w := Run(start, steps); k in w.tasks && w.tasks[k].RequestTask? && w.tasks[k].place.ToAssign?
    ensures var w := Run(start, steps);
            var item := w.tasks[k].item;
            w.tasks[k].place.done <= |item.nodes|
            && forall j | 0 <= j < w.tasks[k].place.done :: HasLessee(w.fleet, item.nodes[j], item.projectId)
  {
    ReachableInv(start, steps);
    assert Progress(Run(start, steps).fleet, Run(start, steps).tasks[k]);
  }

  lemma ReachedRow(start: World, steps: seq<Step>, id: string)
    requires Initial(start) && id in Run(start, steps).db.requests
    ensures var r := Run(start, steps).db.requests[id]; r.id == id && WellFormed(r)
  {
    ReachableInv(start, steps);
  }

  /** The step by which a task begins at a place. */
  function BeginStep(k: nat, id: string, actor: Actor, expected: Option<int>, place: Place): (s: Step)
    ensures TaskOf(s) == Some(k) && !s.Continue?
  {
    match place
    case ToReject(text) => BeginReject(k, id, actor, expected, text)
    case ToCancel => BeginCancel(k, id, actor, expected)
    case _ => BeginApprove(k, id, actor, expected)
  }

  /** A request further on in its lifecycle: the contract and the nodes are the same. */
  predicate SameLease(r: Request, r': Request) {
    r' == r.(state := r'.state, reason := r'.reason, version := r'.version)
  }

  /** The request is there, at the version the caller saw. */
  predicate Readable(db: Db, id: string, expected: Option<int>) {
    id in db.requests && AsExpected(db.requests[id], expected)
  }

  /** An approval that read `r` and finds these tables when it reserves takes effect. */
  predicate Approvable(r: Request, reached: Db, actor: Actor, dcn: string, candidates: seq<OfferCandidate>, now: int) {
    var made := r.Approve(actor, dcn, candidates, now);
    made.Ok? && CanReserve(reached, made.value, r.version)
  }

  // ---- which exception a call raises ----

  /** When the request cannot be read as expected. */
  function ReadError(db: Db, id: string): Error {
    if id in db.requests then VersionConflict else NotFound
  }

  /** A decision: the read, the domain method and the save, in this order. */
  function DecisionError(seen: Db, reached: Db, id: string, expected: Option<int>, made: Result<Request>): Error {
    if id !in seen.requests then NotFound
    else if expected.Some? && expected.value != seen.requests[id].version then VersionConflict
    else if made.Err? then DomainError
    else if id in reached.requests then VersionConflict else NotFound
  }

  /** An approval that has read `r`: the domain method, the version and the nodes, in this order. */
  function ApprovalError(r: Request, reached: Db, actor: Actor, dcn: string, candidates: seq<OfferCandidate>,
                         now: int): Error {
    if r.Approve(actor, dcn, candidates, now).Err? then DomainError
    else if r.id !in reached.requests then NotFound
    else if reached.requests[r.id].version != r.version then VersionConflict
    else NodeAlreadyReserved
  }

  /** A return: the read, the active operations, the version, the permission and the save, in this order. */
  function ReturnError(seen: Db, checked: Db, reached: Db, dcn: string, id: string, actor: Actor,
                       expected: Option<int>): Error {
    if id !in seen.requests then NotFound
    else if RequestBusy(checked, id) then DomainError
    else DecisionError(seen, reached, id, expected, seen.requests[id].RequestReturn(actor, dcn))
  }

  /** A return whose moments find these tables takes the request over. */
  predicate ReturnLands(seen: Db, checked: Db, reached: Db, dcn: string, id: string, actor: Actor,
                        expected: Option<int>) {
    && Readable(seen, id, expected) && !RequestBusy(checked, id)
    && seen.requests[id].RequestReturn(actor, dcn).Ok? && AtVersion(reached, id, seen.requests[id].version)
  }

  /** One row moves on, and its reservations are released or not; operations and keys are as they were. */
  ghost predicate RowWritten(db: Db, db': Db, r: Request, release: bool) {
    && r.id in db.requests && SameLease(db.requests[r.id], r)
    && db'.requests == db.requests[r.id := r]
    && db'.reservations == (if release then Released(db.reservations, r.id) else db.reservations)
    && db'.operations == db.operations && db'.operationKeys == db.operationKeys && db'.requestKeys == db.requestKeys
  }

  /** One request is approved and its nodes are reserved for it. */
  ghost predicate Allotted(db: Db, db': Db, r: Request) {
    && r.id in db.requests && SameContract(db.requests[r.id], r)
    && db'.requests == db.requests[r.id := r]
    && db'.reservations == db.reservations + ReservationsFor(r)
    && db'.operations == db.operations && db'.operationKeys == db.operationKeys && db'.requestKeys == db.requestKeys
  }

  lemma ApprovalAllots(db: Db, was: Request, actor: Actor, dcn: string, candidates: seq<OfferCandidate>, now: int)
    requires was.id in db.requests && db.requests[was.id] == was && was.Approve(actor, dcn, candidates, now).Ok?
    ensures var r := was.Approve(actor, dcn, candidates, now).value;
            r.id == was.id && Allotted(db, Reserve(db, r, actor.userId, actor.projectId, Action.Approve), r)
  {
  }

  lemma AllottedAndWritten(a: Db, b: Db, c: Db, r: Request, r': Request)
    requires Allotted(a, b, r) && RowWritten(b, c, r', false) && r.id == r'.id
    ensures Allotted(a, c, r')
  {
    assert ReservationsFor(r) == ReservationsFor(r');
  }

  /** A task's entry in the task table after a save. */
  function TasksAfterSave(tasks: map<nat, Task>, k: nat, actor: Actor, r: Request, next: Option<Place>,
                          saved: bool): map<nat, Task> {
    if saved && next.Some? then tasks[k := RequestTask(actor, r, next.value)] else tasks - {k}
  }

  lemma SaveIsStep(w: World, k: nat, actor: Actor, was: Request, place: Place, plan: Plan)
    requires k in w.tasks && w.tasks[k] == RequestTask(actor, was, place)
    requires PlannedSave(w.dcn, actor, was, place) == Some(plan) && plan.made.Ok? && plan.made.value.id == was.id
    ensures var r := plan.made.value;
            var saved := AtVersion(w.db, r.id, was.version);
            Apply(w, Continue(k, Nothing))
            == w.(db := if saved
                        then Tables.Save(w.db, r, actor.userId, actor.projectId, plan.action, plan.release)
                        else w.db,
                  tasks := TasksAfterSave(w.tasks, k, actor, r, plan.next, saved))
  {
  }

  /** A runtime call of a lease task, seen from the task table. */
  lemma CallIsStep(w: World, k: nat, actor: Actor, item: Request, place: Place, reply: Reply)
    requires k in w.tasks && w.tasks[k] == RequestTask(actor, item, place)
    requires (place.ToClean? && place.cleaned < |item.nodes|) || (place.ToClear? && place.cleared < |item.nodes|)
    ensures var (outcome, next) :=
              if place.ToClean?
              then (ReturnAndClean(w.fleet, item.nodes[place.cleaned], reply), NextClean(item, place.cleaned + 1))
              else (ClearLessee(w.fleet, item.nodes[place.cleared], reply), ToClear(place.cleared + 1));
            Apply(w, Continue(k, Answer(reply)))
            == w.(fleet := outcome.fleet,
                  tasks := w.tasks[k := RequestTask(actor, item, AfterReturnCall(outcome, next))])
  {
  }

  /** The second read of a return. */
  lemma ReadAgainIsStep(w: World, k: nat, actor: Actor, was: Request)
    requires k in w.tasks ==> w.tasks[k] == RequestTask(actor, was, ToCompleteReturn)
    ensures Apply(w, Continue(k, Nothing)) ==
              if k in w.tasks && was.id in w.db.requests && w.db.requests[was.id].state.Cleaning?
              then Go(w, k, actor, w.db.requests[was.id], NextClean(w.db.requests[was.id], 0))
              else End(w, k)
  {
    if k !in w.tasks { assert w.tasks - {k} == w.tasks; }
  }

  lemma AssignIsStep(w: World, k: nat, actor: Actor, item: Request, done: nat, reply: Reply)
    requires k in w.tasks && w.tasks[k] == RequestTask(actor, item, ToAssign(done)) && done < |item.nodes|
    ensures var outcome := AssignLessee(w.fleet, item.nodes[done], item.projectId, w.dcn, reply);
            Apply(w, Continue(k, Answer(reply)))
            == w.(fleet := outcome.fleet, tasks := w.tasks[k := RequestTask(actor, item, AfterAssign(outcome, done))])
  {
  }

  /** An assignment takes the lessee away from no node of the project. */
  lemma AssignmentKeepsLessees(f: Fleet, n: string, project: string, dcn: string, reply: Reply)
    ensures var f' := AssignLessee(f, n, project, dcn, reply).fleet;
            forall m :: HasLessee(f, m, project) ==> HasLessee(f', m, project)
  {
  }

  lemma RunIsStep(w: World, k: nat, op: Operation, reply: Reply)
    requires k in w.tasks && w.tasks[k] == RunTask(op)
    ensures var outcome := RunCommand(w.fleet, op, w.dcn, reply);
            Apply(w, Continue(k, Answer(reply)))
            == w.(fleet := outcome.fleet, tasks := w.tasks[k := FinishTask(op, outcome.error)],
                  issued := w.issued + if op.command.OtherCommand? then multiset{} else multiset{op.id})
  {
    assert w.issued + multiset{} == w.issued;
  }

  lemma InsertIsStep(w: World, k: nat, actor: Actor, item: Request, op: Operation, key: Option<string>)
    requires k in w.tasks && w.tasks[k] == RequestTask(actor, item, ToInsert(op, key)) && Consistent(w.db)
    ensures var answer := SubmissionAnswer(w.db, op, key);
            Apply(w, Continue(k, Nothing))
            == w.(db := AfterSubmission(w.db, op, key),
                  tasks := if answer.Ok? && answer.value.id == op.id
                           then w.tasks[k := RequestTask(actor, item, ToRecord(op))] else w.tasks - {k})
  {
  }

  lemma StartIsStep(w: World, k: nat, id: string)
    requires k !in w.tasks && InOperationState(w.db, id, Queued)
    ensures Apply(w, BeginProcess(k, id))
            == w.(db := Start(w.db, id), tasks := w.tasks[k := RunTask(Start(w.db, id).operations[id])])
  {
  }

  lemma RowsWritten(a: Db, b: Db, c: Db, r: Request, r': Request, release: bool)
    requires RowWritten(a, b, r, false) && RowWritten(b, c, r', release) && r.id == r'.id
    ensures RowWritten(a, c, r', release)
  {
  }

  /** A request that has come to an end stays as it is, whatever has happened since. */
  lemma EndedSince(start: World, before: seq<Step>, steps: seq<Step>, id: string)
    requires Initial(start) && before <= steps
    requires var db := Run(start, before).db; id in db.requests && Terminal(db.requests[id].state)
    ensures var db := Run(start, steps).db;
            id in db.requests && db.requests[id] == Run(start, before).db.requests[id]
  {
    var since := steps[|before|..];
    assert steps == before + since;
    RunConcat(start, before, since);
    ReachableInv(start, before);
    TerminalIsFinal(Run(start, before), since, id);
  }

  // ---- what an expiry run does ----

  predicate Due(db: Db, id: string, now: int) {
    id in db.requests && db.requests[id].state.Leased? && db.requests[id].requestedUntil <= now
  }

  /** Exactly the requests `ids` were returned, and exactly their reservations went. */
  ghost predicate AllReturned(before: Db, after: Db, ids: seq<string>) {
    && after.requests.Keys == before.requests.Keys
    && (forall id | id in ids ::
          && id in before.requests && after.requests[id].state.Returned?
          && SameLease(before.requests[id], after.requests[id]))
    && (forall id | id in before.requests && id !in ids :: after.requests[id] == before.requests[id])
    && after.reservations
      == (map n | n in before.reservations && before.reservations[n].requestId !in ids :: before.reservations[n])
    && after.operations == before.operations && after.operationKeys == before.operationKeys
    && after.requestKeys == before.requestKeys
  }

  /** `done` were returned; `id` is untouched or quarantined, with its reservations. */
  ghost predicate StoppedAt(before: Db, after: Db, done: seq<string>, id: string) {
    && id in before.requests && id in after.requests && id !in done
    && AllReturned(before, after.(requests := after.requests[id := before.requests[id]]), done)
    && SameLease(before.requests[id], after.requests[id])
    && if RequestBusy(before, id) then after.requests[id] == before.requests[id] else after.requests[id].state.Errored?
  }

  /** The steps by which the leases are begun to be returned. */
  function Returns(me: nat, actor: Actor, ids: seq<string>): seq<Step> {
    if ids == [] then []
    else
      var last := |ids| - 1;
      Returns(me, actor, ids[..last]) + [Step.BeginReturn(me, ids[last], actor, None)]
  }

  lemma ReturnsNext(me: nat, actor: Actor, ids: seq<string>, id: string)
    ensures Returns(me, actor, ids + [id]) == Returns(me, actor, ids) + [Step.BeginReturn(me, id, actor, None)]
  {
    assert (ids + [id])[..|ids|] == ids;
  }

  /** One of the first `i` rows is due and has this id. */
  ghost predicate DueAmong(rows: seq<Request>, i: nat, id: string, now: int)
    requires i <= |rows|
  {
    exists j :: 0 <= j < i && rows[j].id == id && rows[j].Expired(now)
  }

  lemma DueAmongNext(rows: seq<Request>, i: nat, now: int)
    requires i < |rows|
    ensures forall id :: DueAmong(rows, i + 1, id, now) <==>
                         DueAmong(rows, i, id, now) || (rows[i].id == id && rows[i].Expired(now))
  {
    forall id
      ensures DueAmong(rows, i + 1, id, now) <==>
                DueAmong(rows, i, id, now) || (rows[i].id == id && rows[i].Expired(now))
    {
      if DueAmong(rows, i + 1, id, now) {
        var j :| 0 <= j < i + 1 && rows[j].id == id && rows[j].Expired(now);
      }
      if DueAmong(rows, i, id, now) {
        var j :| 0 <= j < i && rows[j].id == id && rows[j].Expired(now);
      }
    }
  }

  /** The ids of the expired leases among the rows, in the order of the rows. */
  method DueIds(rows: seq<Request>, now: int) returns (due: seq<string>)
    requires Order.Ascending(IdsOf(rows))
    ensures Order.Ascending(due) && forall id :: id in due <==> DueAmong(rows, |rows|, id, now)
  {
    due := [];
    for i := 0 to |rows|
      invariant Order.Ascending(due) && forall id :: id in due <==> DueAmong(rows, i, id, now)
    {
      var row := rows[i];
      DueAmongNext(rows, i, now);
      if row.Expired(now) {
        assert IdsOf(rows)[i] == row.id;
        forall a | 0 <= a < |due| ensures Order.Le(due[a], row.id) && due[a] != row.id {
          assert DueAmong(rows, i, due[a], now);
          var j :| 0 <= j < i && rows[j].id == due[a] && rows[j].Expired(now);
          assert IdsOf(rows)[j] == rows[j].id;
        }
        due := due + [row.id];
      }
    }
  }

  lemma DueAmongIsDue(db: Db, rows: seq<Request>, now: int)
    requires forall id :: id in IdsOf(rows) <==> id in db.requests
    requires forall r | r in rows :: r.id in db.requests && db.requests[r.id] == r
    ensures forall id :: DueAmong(rows, |rows|, id, now) <==> Due(db, id, now)
  {
    forall id ensures DueAmong(rows, |rows|, id, now) <==> Due(db, id, now) {
      if Due(db, id, now) {
        assert id in IdsOf(rows);
        var j :| 0 <= j < |rows| && IdsOf(rows)[j] == id;
        assert rows[j] in rows;
      }
    }
  }

  /** The listing is determined by the tables: they have one list of due leases in order. */
  lemma ListingIsDetermined(db: Db, now: int, s: seq<string>, t: seq<string>)
    requires Order.Ascending(s) && Order.Ascending(t)
    requires forall id :: id in s <==>
               id in db.requests && db.requests[id].state == Leased && db.requests[id].requestedUntil <= now
    requires forall id :: id in t <==>
               id in db.requests && db.requests[id].state == Leased && db.requests[id].requestedUntil <= now
    ensures s == t
  {
    Order.AscendingIsUnique(s, t);
  }

  lemma NotYetDone(ids: seq<string>, done: seq<string>)
    requires Order.Ascending(ids) && done <= ids && |done| < |ids|
    ensures ids[|done|] !in done && ids[|done|] in ids && done + [ids[|done|]] <= ids
  {
  }

  lemma OneMoreReturned(before: Db, middle: Db, after: Db, done: seq<string>, id: string)
    requires AllReturned(before, middle, done) && id !in done && id in middle.requests && id in after.requests
    requires RowWritten(middle, after, after.requests[id], true)
    requires after.requests[id].id == id && after.requests[id].state.Returned?
    ensures AllReturned(before, after, done + [id])
  {
    var ids := done + [id];
    assert forall i :: i in ids <==> i in done || i == id;
    var kept := map n | n in before.reservations && before.reservations[n].requestId !in ids :: before.reservations[n];
    assert after.reservations.Keys == kept.Keys;
    assert after.reservations == kept;
  }

  lemma OneFailed(before: Db, middle: Db, after: Db, done: seq<string>, id: string)
    requires AllReturned(before, middle, done) && id !in done && id in before.requests
    requires RequestBusy(middle, id) ==> after == middle
    requires !RequestBusy(middle, id) ==>
               && id in after.requests && RowWritten(middle, after, after.requests[id], false)
               && after.requests[id].id == id && after.requests[id].state.Errored?
    ensures StoppedAt(before, after, done, id)
  {
    assert RequestBusy(middle, id) == RequestBusy(before, id);
    assert after.requests[id := before.requests[id]] == middle.requests;
  }

  /** One round of the loop when nobody else is there. */
  lemma OneRound(before: Db, middle: Db, after: Db, done: seq<string>, id: string, actor: Actor, dcn: string,
                 returned: bool)
    requires AllReturned(before, middle, done) && id !in done && actor.IsAdmin(dcn)
    requires id in before.requests && before.requests[id].state.Leased?
    requires Consistent(after)
    requires if ReturnLands(middle, middle, middle, dcn, id, actor, None) then
               && id in after.requests && RowWritten(middle, after, after.requests[id], returned)
               && (if returned then after.requests[id].state.Returned? else after.requests[id].state.Errored?)
             else
               !returned && after == middle
    ensures if returned then AllReturned(before, after, done + [id]) else StoppedAt(before, after, done, id)
  {
    assert ReturnLands(middle, middle, middle, dcn, id, actor, None) <==> !RequestBusy(middle, id);
    if returned {
      OneMoreReturned(before, middle, after, done, id);
    } else {
      OneFailed(before, middle, after, done, id);
    }
  }

  predicate ReturnedIn(db: Db, id: string) {
    id in db.requests && db.requests[id].state.Returned?
  }

  lemma StillReturned(start: World, before: seq<Step>, steps: seq<Step>, done: seq<string>)
    requires Initial(start) && before <= steps
    requires forall id | id in done :: ReturnedIn(Run(start, before).db, id)
    ensures forall id | id in done :: ReturnedIn(Run(start, steps).db, id)
  {
    forall id | id in done ensures ReturnedIn(Run(start, steps).db, id) {
      EndedSince(start, before, steps, id);
    }
  }

  // ---- creation ----

  /** A bound key or an id or quantity that cannot be inserted leaves the store alone; else one row is new. */
  ghost predicate CreatedAs(before: Db, after: Db, r: Request, key: Option<string>) {
    after == if !RequestKeyBound(before, r.projectId, key) && CanCreate(before, r)
             then Create(before, r, key) else before
  }

  lemma ReachedRequestKey(start: World, steps: seq<Step>, key: RequestKey)
    requires Initial(start) && key in Run(start, steps).db.requestKeys
    ensures var db := Run(start, steps).db;
            db.requestKeys[key] in db.requests
            && db.requests[db.requestKeys[key]].id == db.requestKeys[key]
            && db.requests[db.requestKeys[key]].projectId == key.projectId
  {
    ReachableInv(start, steps);
    ReachedDbIsConsistent(start, steps);
  }

  // ---- operations ----

  /** A task that processes an operation finds it running, as it started it. */
  lemma ReachedOperation(start: World, steps: seq<Step>, k: nat)
    requires Initial(start)
    requires var w := Run(start, steps); k in w.tasks && !w.tasks[k].RequestTask?
    ensures var w := Run(start, steps);
            var op := w.tasks[k].op;
            InOperationState(w.db, op.id, Running) && w.db.operations[op.id] == op
  {
    ReachableInv(start, steps);
    var w := Run(start, steps);
    assert Processed(w, w.tasks[k]);
  }

  /** An operation key belongs to one project. */
  lemma ReachedOperationKey(start: World, steps: seq<Step>, key: OperationKey)
    requires Initial(start) && key in Run(start, steps).db.operationKeys
    ensures var db := Run(start, steps).db;
            db.operationKeys[key] in db.operations && db.operations[db.operationKeys[key]].projectId == key.projectId
  {
    ReachableInv(start, steps);
  }

  /** A queueing about to record its operation: the version of its copy fits exactly while the request is leased. */
  lemma ReachedRecord(start: World, steps: seq<Step>, k: nat)
    requires Initial(start)
    requires var w := Run(start, steps); k in w.tasks && w.tasks[k].RequestTask? && w.tasks[k].place.ToRecord?
    ensures var w := Run(start, steps);
            var item := w.tasks[k].item;
            item.id in w.db.requests
            && (AtVersion(w.db, item.id, item.version) <==> w.db.requests[item.id].state.Leased?)
  {
    ReachableInv(start, steps);
    QueueingRaisesExactly(Run(start, steps), k, Run(start, steps).tasks[k].place.queued, Nothing);
  }

  /** An operation row is still there, and still the same submission, whatever has happened since. */
  lemma SubmittedSince(start: World, before: seq<Step>, steps: seq<Step>, id: string)
    requires before <= steps && id in Run(start, before).db.operations
    ensures id in Run(start, steps).db.operations
    ensures SameOperation(Run(start, before).db.operations[id], Run(start, steps).db.operations[id])
  {
    var since := steps[|before|..];
    assert steps == before + since;
    RunConcat(start, before, since);
    OperationsKeepTheirContent(Run(start, before), since, id);
  }

  /** Who may queue an operation, and what is queued, field by field. */
  lemma QueueingExactly(r: Request, actor: Actor, node: string, version: int, command: Command, id: string)
    ensures MayOperate(r, actor, node, version) <==>
              && r.version == version && r.projectId == actor.projectId && r.state == Leased && node in r.nodes
              && ("baremetal_operator" in actor.roles || "baremetal_admin" in actor.roles || "admin" in actor.roles)
    ensures var op := NewOperation(r, actor, node, command, id);
            && op.id == id && op.requestId == r.id && op.projectId == r.projectId && op.userId == actor.userId
            && op.node == node && op.command == command && op.state == Queued && op.error == None
  {
    RolesExactly(actor, "", "");
  }

  /** What decides a return, field by field. */
  lemma ReturnLandsExactly(seen: Db, checked: Db, reached: Db, dcn: string, id: string, actor: Actor,
                           expected: Option<int>)
    ensures ReturnLands(seen, checked, reached, dcn, id, actor, expected) <==>
              && id in seen.requests && seen.requests[id].state == Leased
              && (expected == None || expected == Some(seen.requests[id].version))
              && (actor.projectId == seen.requests[id].projectId
                  || (actor.projectId == dcn && "baremetal_admin" in actor.roles))
              && !(exists op :: op in checked.operations && checked.operations[op].requestId == id
                                && checked.operations[op].state in {Queued, Running})
              && id in reached.requests && reached.requests[id].version == seen.requests[id].version
  {
    assert forall op | op in checked.operations ::
             checked.operations[op].Active() <==> checked.operations[op].state in {Queued, Running};
    if id in seen.requests { ReturnRequestExactly(seen.requests[id], actor, dcn); }
  }

  /** What decides an approval besides the selection, field by field. */
  lemma ApprovableExactly(r: Request, reached: Db, actor: Actor, dcn: string, candidates: seq<OfferCandidate>, now: int)
    ensures Approvable(r, reached, actor, dcn, candidates, now) <==>
              var made := r.Approve(actor, dcn, candidates, now);
              && made.Ok? && r.id in reached.requests && reached.requests[r.id].version == r.version
              && (forall i, j | 0 <= i < j < |made.value.nodes| :: made.value.nodes[i] != made.value.nodes[j])
              && (forall n | n in made.value.nodes :: n !in reached.reservations)
  {
  }

  /** The operation's project is the lessee of its node, which is in the state the command needs and without fault. */
  predicate LeaseFits(f: Fleet, op: Operation, dcn: string) {
    && op.node in f.nodes
    && var node := f.nodes[op.node];
    && node.owner == Some(dcn) && node.lessee == Some(op.projectId)
    && !node.condition.maintenance && node.condition.lastError in {None, Some("")}
    && match op.command
       case Deploy(_, _) => node.condition.provision == Available
       case Power(target) => node.condition.provision == ProvisionState.Active
                             && target in {"on", "off", "reboot", "soft off", "soft reboot"}
       case OtherCommand(_, _) => false
  }

  lemma NotTruthy(x: Option<string>)
    ensures !Truthy(x) <==> x in {None, Some("")}
  {
  }

  lemma RefusedWithoutLease(f: Fleet, op: Operation, dcn: string, reply: Reply)
    requires !LeaseFits(f, op, dcn)
    ensures var outcome := RunCommand(f, op, dcn, reply);
            outcome.fleet == f && outcome.error.Some? && outcome.error.value != ""
  {
    if op.node in f.nodes { NotTruthy(f.nodes[op.node].condition.lastError); }
  }

  /** What a sequential submission of a new operation does to the store: its answer, and one row with one event if
      the operation is inserted. */
  ghost predicate Enqueued(before: Db, after: Db, actor: Actor, op: Operation, key: Option<string>,
                           result: Result<Operation>)
    requires Consistent(before)
  {
    && result == SubmissionAnswer(before, op, key)
    && var submitted := AfterSubmission(before, op, key);
    if submitted == before then after == before
    else
      && op.requestId in before.requests
      && after == Record(submitted, op.requestId, actor.userId, actor.projectId,
                         OperationQueued(op.command.Kind(), op.node))
  }

  class AccessCoordinator {
    const dcn: string
    const alone: bool
    const store: AccessStore
    const runtime: LeaseRuntime
    /** The tasks of the event loop, and the runtime calls made so far. */
    var tasks: map<nat, Task>
    var issued: multiset<string>
    ghost const start: World
    ghost var steps: seq<Step>

    function Now(): World
      reads this, store, runtime
    {
      World(dcn, store.Contents(), runtime.fleet, tasks, issued)
    }

    /** The process has come here by a run of the protocol from an empty store. */
    ghost predicate Valid()
      reads this, store, runtime
    {
      Initial(start) && Now() == Run(start, steps) && store.Valid()
    }

    constructor (dcn: string, alone: bool, store: AccessStore, runtime: LeaseRuntime)
      requires store.Contents() == EMPTY && runtime.fleet.dirty == {}
      requires forall n | n in runtime.fleet.nodes :: runtime.fleet.nodes[n].lessee == None
      ensures Valid() && this.store == store && this.runtime == runtime && this.alone == alone && this.dcn == dcn
    {
      this.dcn, this.alone, this.store, this.runtime := dcn, alone, store, runtime;
      tasks, issued, steps := map[], multiset{}, [];
      start := World(dcn, store.Contents(), runtime.fleet, map[], multiset{});
      new;
    }

    /** The tables at a moment of the run. */
    ghost function TablesAfter(taken: seq<Step>): Db {
      Run(start, taken).db
    }

    /** Account for a step that has been taken. */
    ghost method Took(me: nat, s: Step, was: World)
      requires Initial(start) && was == Run(start, steps) && Now() == Apply(was, s)
      modifies this`steps
      ensures Valid() && steps == old(steps) + [s]
      ensures Own(steps, me) == Own(old(steps), me) + if TaskOf(s) == Some(me) then 1 else 0
      ensures Begun(steps, me)
              == Begun(old(steps), me) + if TaskOf(s) == Some(me) && !s.Continue? then [s] else []
    {
      RunThenStep(start, steps, s);
      ReachedDbIsConsistent(start, steps + [s]);
      OwnNext(steps, s, me);
      steps := steps + [s];
    }

    /** One step of another task, or of the environment, if `s` is one. */
    method Yield(me: nat, s: Step)
      requires Valid()
      modifies this, store, runtime
      ensures Valid() && Awaited(old(steps), steps, me)
      ensures me in tasks <==> me in old(tasks)
      ensures me in tasks ==> tasks[me] == old(tasks[me])
    {
      if TaskOf(s) == Some(me) || s.Restart? { return; }
      var w := Apply(Now(), s);
      ghost var was := Now();
      OthersLeaveTask(was, s, me);
      SameOperator(was, s);
      store.Install(w.db);
      runtime.fleet, tasks, issued := w.fleet, w.tasks, w.issued;
      Took(me, s, was);
    }

    /** An await: any number of steps of other tasks and of the environment. */
    method Others(me: nat)
      requires Valid()
      modifies this, store, runtime
      ensures Valid() && Awaited(old(steps), steps, me)
      ensures me in tasks <==> me in old(tasks)
      ensures me in tasks ==> tasks[me] == old(tasks[me])
      ensures alone ==> Now() == old(Now()) && steps == old(steps)
    {
      var count: int := *;
      if alone { count := 0; }
      var i := 0;
      while i < count
        invariant Valid() && Awaited(old(steps), steps, me)
        invariant me in tasks <==> me in old(tasks)
        invariant me in tasks ==> tasks[me] == old(tasks[me])
        invariant alone ==> Now() == old(Now()) && steps == old(steps)
      {
        var s: Step := *;
        Yield(me, s);
        i := i + 1;
      }
    }

    /** An await, and the moment it ends. */
    method Await(me: nat) returns (ghost moment: seq<Step>)
      requires Valid()
      modifies this, store, runtime
      ensures Valid() && moment == steps && Awaited(old(steps), moment, me) && store.Contents() == TablesAfter(moment)
      ensures me in tasks <==> me in old(tasks)
      ensures me in tasks ==> tasks[me] == old(tasks[me])
      ensures alone ==> Now() == old(Now()) && moment == old(steps)
    {
      Others(me);
      moment := steps;
    }

    // ---- the pieces of a call ----

    // Each of these is one step of the task: what it does between two awaits.

    /** Read the request and compare the version the caller saw. */
    method ReadStep(me: nat, id: string, actor: Actor, expected: Option<int>, place: Place)
      returns (result: Result<AccessRequest>)
      requires Valid() && me !in tasks
      requires place.ToApprove? || place.ToReject? || place.ToCancel?
      modifies this
      ensures Valid()
      ensures Begun(steps, me) == Begun(old(steps), me)
                                  + if result.Ok? then [BeginStep(me, id, actor, expected, place)] else []
      ensures steps == if result.Ok? then old(steps) + [BeginStep(me, id, actor, expected, place)] else old(steps)
      ensures result.Ok? ==> fresh(result.value) && result.value.id == id && SavedAs(result.value.View())
                             && tasks == old(tasks)[me := RequestTask(actor, result.value.View(), place)]
      ensures result.Err? ==> me !in tasks && !result.error.RuntimeError?
      ensures result.Ok? <==> Readable(store.Contents(), id, expected)
      ensures result.Err? ==> result.error == ReadError(store.Contents(), id)
    {
      result := store.Get(id);
      if result.Ok? {
        ReachedRow(start, steps, id);
        if expected.Some? && result.value.version != expected.value { return Err(VersionConflict); }
        ghost var was := Now();
        tasks := tasks[me := RequestTask(actor, result.value.View(), place)];
        Took(me, BeginStep(me, id, actor, expected, place), was);
      }
    }

    /** The domain method raised: the call ends before it reaches the store. */
    method RaiseStep(me: nat, input: Input)
      requires Valid() && me in tasks && Apply(Now(), Continue(me, input)) == End(Now(), me)
      modifies this
      ensures Valid() && steps == old(steps) + [Continue(me, input)] && me !in tasks
      ensures Continues(old(steps), steps, me)
    {
      ghost var was := Now();
      tasks := tasks - {me};
      Took(me, Continue(me, input), was);
    }

    /** Save what the domain method made of the copy `was`. A task that carries the request always succeeds. */
    method SaveStep(me: nat, item: AccessRequest, ghost was: Request, ghost place: Place, expected: int,
                    actor: Actor, action: Action, release: bool, next: Option<Place>)
      returns (error: Option<Error>)
      requires Valid() && me in tasks && tasks[me] == RequestTask(actor, was, place)
      requires PlannedSave(dcn, actor, was, place) == Some(Plan(Ok(item.View()), action, release, next))
      requires item.id == was.id && expected == was.version
      modifies this, store
      ensures Valid() && steps == old(steps) + [Continue(me, Nothing)]
      ensures Continues(old(steps), steps, me)
      ensures error.None? <==> AtVersion(old(store.Contents()), item.id, expected)
      ensures Carries(place).Some? ==> error.None?
      ensures error.None? ==>
                item.id in old(store.requests)
                && store.Contents() == Tables.Save(old(store.Contents()), item.View(),
                                                   actor.userId, actor.projectId, action, release)
      ensures error.Some? ==> store.Contents() == old(store.Contents()) && !error.value.RuntimeError?
      ensures tasks == TasksAfterSave(old(tasks), me, actor, item.View(), next, error.None?)
      ensures error.Some? ==> error == Some(StaleError(old(store.Contents()), item.id))
    {
      ghost var before := Now();
      if Carries(place).Some? { ReachedOwner(start, steps, me); }
      SaveIsStep(before, me, actor, was, place, Plan(Ok(item.View()), action, release, next));
      error := store.Save(item, expected, actor.userId, actor.projectId, action, release);
      tasks := TasksAfterSave(tasks, me, actor, item.View(), next, error.None?);
      Took(me, Continue(me, Nothing), before);
    }

    /** Save the approval together with the reservations of its nodes. */
    method ReserveStep(me: nat, item: AccessRequest, ghost was: Request, expected: int, actor: Actor,
                       ghost candidates: seq<OfferCandidate>, ghost now: int) returns (error: Option<Error>)
      requires Valid() && me in tasks && tasks[me] == RequestTask(actor, was, ToApprove)
      requires was.Approve(actor, dcn, candidates, now) == Ok(item.View())
      requires item.id == was.id && expected == was.version
      modifies this, store
      ensures Valid() && steps == old(steps) + [Continue(me, Offers(candidates, now))]
      ensures Continues(old(steps), steps, me)
      ensures error.None? <==> CanReserve(old(store.Contents()), item.View(), expected)
      ensures error.None? ==>
                item.id in old(store.requests)
                && store.Contents() == Reserve(old(store.Contents()), item.View(),
                                               actor.userId, actor.projectId, Action.Approve)
      ensures error.Some? ==> store.Contents() == old(store.Contents()) && !error.value.RuntimeError?
      ensures tasks == TasksAfterSave(old(tasks), me, actor, item.View(), Some(ToStartAllocation), error.None?)
      ensures error.Some? ==> error.value == if AtVersion(old(store.Contents()), item.id, expected)
                                             then NodeAlreadyReserved else StaleError(old(store.Contents()), item.id)
    {
      ghost var before := Now();
      error := store.SaveWithReservations(item, expected, actor.userId, actor.projectId, Action.Approve);
      tasks := TasksAfterSave(tasks, me, actor, item.View(), Some(ToStartAllocation), error.None?);
      Took(me, Continue(me, Offers(candidates, now)), before);
    }

    method AssignStep(me: nat, item: AccessRequest, done: nat, actor: Actor) returns (error: Option<string>)
      requires Valid() && me in tasks && tasks[me] == RequestTask(actor, item.View(), ToAssign(done))
      requires done < |item.nodes|
      modifies this, runtime
      ensures Valid() && Continues(old(steps), steps, me)
      ensures tasks == old(tasks)[me := RequestTask(actor, item.View(),
                if error.None? then ToAssign(done + 1) else ToRecordAllocationFailure(error.value))]
      ensures Own(steps, me) == Own(old(steps), me) + 1
      ensures forall n :: HasLessee(old(runtime.fleet), n, item.projectId) ==>
                            HasLessee(runtime.fleet, n, item.projectId)
    {
      ghost var before := Now();
      var reply: Reply;
      error, reply := runtime.AssignLessee(item.nodes[done], item.projectId, dcn);
      AssignIsStep(before, me, actor, item.View(), done, reply);
      AssignmentKeepsLessees(before.fleet, item.nodes[done], item.projectId, dcn, reply);
      var place := if error.None? then ToAssign(done + 1) else ToRecordAllocationFailure(error.value);
      tasks := tasks[me := RequestTask(actor, item.View(), place)];
      Took(me, Continue(me, Answer(reply)), before);
    }

    method CleanStep(me: nat, item: AccessRequest, cleaned: nat, actor: Actor) returns (error: Option<string>)
      requires Valid() && me in tasks && tasks[me] == RequestTask(actor, item.View(), ToClean(cleaned))
      requires cleaned < |item.nodes|
      modifies this, runtime
      ensures Valid() && Continues(old(steps), steps, me)
      ensures tasks == old(tasks)[me := RequestTask(actor, item.View(),
                if error.None? then NextClean(item.View(), cleaned + 1) else ToRecordCleaningFailure(error.value))]
    {
      ghost var before := Now();
      var reply: Reply;
      error, reply := runtime.ReturnAndClean(item.nodes[cleaned]);
      CallIsStep(before, me, actor, item.View(), ToClean(cleaned), reply);
      var place := if error.None? then NextClean(item.View(), cleaned + 1) else ToRecordCleaningFailure(error.value);
      tasks := tasks[me := RequestTask(actor, item.View(), place)];
      Took(me, Continue(me, Answer(reply)), before);
    }

    method ClearStep(me: nat, item: AccessRequest, cleared: nat, actor: Actor) returns (error: Option<string>)
      requires Valid() && me in tasks && tasks[me] == RequestTask(actor, item.View(), ToClear(cleared))
      requires cleared < |item.nodes|
      modifies this, runtime
      ensures Valid() && Continues(old(steps), steps, me)
      ensures tasks == old(tasks)[me := RequestTask(actor, item.View(),
                if error.None? then ToClear(cleared + 1) else ToRecordCleaningFailure(error.value))]
    {
      ghost var before := Now();
      var reply: Reply;
      error, reply := runtime.ClearLessee(item.nodes[cleared]);
      CallIsStep(before, me, actor, item.View(), ToClear(cleared), reply);
      var place := if error.None? then ToClear(cleared + 1) else ToRecordCleaningFailure(error.value);
      tasks := tasks[me := RequestTask(actor, item.View(), place)];
      Took(me, Continue(me, Answer(reply)), before);
    }

    // ---- the calls ----

    /** What a caller may rely on once a request of this coordinator is saved as `r`. */
    ghost predicate SavedAs(r: Request)
      reads this, store, runtime
    {
      r.id in store.requests && store.requests[r.id] == r
    }

    ghost predicate NodesReserved(r: Request)
      reads this, store, runtime
    {
      forall n | n in r.nodes :: ReservedFor(store.Contents(), n, r.id)
    }

    ghost predicate NodesAssigned(r: Request)
      reads this, store, runtime
    {
      forall n | n in r.nodes :: HasLessee(runtime.fleet, n, r.projectId)
    }

    /** The transaction that creates a request, or answers with the one its key is bound to. */
    method CreateStep(me: nat, r: Request, actor: Actor, key: Option<string>) returns (result: Result<AccessRequest>)
      requires Valid()
      requires r == NewRequest(actor, r.id, r.profile, r.quantity, r.purpose, r.requestedUntil, r.rack)
      modifies this, store
      ensures Valid() && tasks == old(tasks) && runtime.fleet == old(runtime.fleet)
      ensures Awaited(old(steps), steps, me)
      ensures steps == old(steps) + [CreateRequest(actor, r.id, r.profile, r.quantity, r.purpose,
                                                   r.requestedUntil, r.rack, key)]
      ensures CreatedAs(old(store.Contents()), store.Contents(), r, key)
      ensures result.Ok? <==>
                RequestKeyBound(old(store.Contents()), r.projectId, key) || CanCreate(old(store.Contents()), r)
      ensures result.Ok? ==> SavedAs(result.value.View()) && result.value.projectId == actor.projectId
      ensures result.Ok? && Truthy(key) ==>
                RequestKey(actor.projectId, key.value) in store.requestKeys
                && store.requestKeys[RequestKey(actor.projectId, key.value)] == result.value.id
      ensures result.Ok? && r.id !in old(store.requests) && result.value.id == r.id ==> result.value.View() == r
      ensures result.Err? ==> result.error == IntegrityError
    {
      ghost var before := Now();
      if Truthy(key) && RequestKey(r.projectId, key.value) in store.requestKeys {
        ReachedRequestKey(start, steps, RequestKey(r.projectId, key.value));
      }
      var item := new AccessRequest(r);
      result := store.CreateIdempotent(item, key);
      Took(me, CreateRequest(actor, r.id, r.profile, r.quantity, r.purpose, r.requestedUntil, r.rack, key), before);
    }

    /** create_request: `id` is the fresh uuid, and the deadline counts from now. `reached` is what had happened when
        the transaction began. */
    method CreateLeaseRequest(me: nat, actor: Actor, dcnDomain: string, maxLeaseDays: int, id: string, profile: string,
                              quantity: int, purpose: string, leaseDays: int, rack: Option<string>,
                              key: Option<string>, now: int)
      returns (result: Result<AccessRequest>, ghost reached: seq<Step>)
      requires Valid() && me !in tasks
      modifies this, store, runtime
      ensures Valid() && Awaited(old(steps), reached, me) && Awaited(reached, steps, me) && me !in tasks
      ensures alone ==> reached == old(steps)
      ensures var r := NewRequest(actor, id, profile, quantity, purpose, now + leaseDays * DAY, rack);
              if && dcnDomain != "" && actor.userDomainId == actor.projectDomainId == dcnDomain
                 && ("member" in actor.roles || "admin" in actor.roles || "baremetal_requester" in actor.roles
                     || "baremetal_operator" in actor.roles || "baremetal_admin" in actor.roles)
                 && leaseDays <= maxLeaseDays && (key.Some? ==> 8 <= |key.value| <= 128)
              then CreatedAs(Run(start, reached).db, store.Contents(), r, key)
                   && (result.Ok? <==> RequestKeyBound(Run(start, reached).db, r.projectId, key)
                                       || CanCreate(Run(start, reached).db, r))
              else result == Err(ValueError) && Now() == old(Now())
      ensures result.Err? ==> result.error in {ValueError, IntegrityError}
      ensures result.Ok? ==> SavedAs(result.value.View()) && result.value.projectId == actor.projectId
      ensures result.Ok? && key.Some? ==>
                RequestKey(actor.projectId, key.value) in store.requestKeys
                && store.requestKeys[RequestKey(actor.projectId, key.value)] == result.value.id
      ensures result.Ok? && id !in Run(start, reached).db.requests && result.value.id == id ==>
                var row := result.value.View();
                && row.projectId == actor.projectId && row.userId == actor.userId && row.profile == profile
                && row.quantity == quantity && row.purpose == purpose && row.rack == rack
                && row.requestedUntil == now + leaseDays * 86_400_000_000 && row.state == Submitted && row.version == 0
                && row.nodes == [] && row.reviewer == row.reason == None
    {
      reached := steps;
      RolesExactly(actor, dcn, dcnDomain);
      if !actor.CanRequest(dcnDomain) || leaseDays > maxLeaseDays { return Err(ValueError), reached; }
      var r := NewRequest(actor, id, profile, quantity, purpose, now + leaseDays * DAY, rack);
      if key.Some? && !(8 <= |key.value| <= 128) { return Err(ValueError), reached; }
      Others(me);
      reached := steps;
      result := CreateStep(me, r, actor, key);
    }

    /** Approve: reserve, then assign the lessee node by node. A failed assignment quarantines the request
        with its reservations. `candidates` and `now` are what the inventory and the clock answer; `seen` and `reached`
        are the moments of the read and of the reservation, or of the exception before it. */
    method Approve(me: nat, id: string, actor: Actor, expected: Option<int>, candidates: seq<OfferCandidate>, now: int)
      returns (result: Result<AccessRequest>, ghost seen: seq<Step>, ghost reached: seq<Step>)
      requires Valid() && me !in tasks
      modifies this, store, runtime
      ensures Valid() && Awaited(old(steps), seen, me) && seen <= reached <= steps && me !in tasks
      ensures Begun(steps, me) == Begun(old(steps), me) +
              if Readable(TablesAfter(seen), id, expected) then [BeginApprove(me, id, actor, expected)] else []
      ensures var db := TablesAfter(seen);
              Readable(db, id, expected) ==>
                Awaited(seen + [BeginStep(me, id, actor, expected, ToApprove)], reached, me)
                && reached + [Continue(me, Offers(candidates, now))] <= steps
                && (result.Err? && !result.error.RuntimeError? ==>
                      steps == reached + [Continue(me, Offers(candidates, now))])
      ensures !Readable(TablesAfter(seen), id, expected) ==> steps == reached == seen
      ensures var db := TablesAfter(seen);
              result.Ok? || result.error.RuntimeError? <==>
                Readable(db, id, expected)
                && Approvable(db.requests[id], TablesAfter(reached), actor, dcn, candidates, now)
      ensures result.Ok? || result.error.RuntimeError? ==>
                && id in store.requests && NodesReserved(store.requests[id])
                && SameLease(TablesAfter(seen).requests[id].Approve(actor, dcn, candidates, now).value,
                             store.requests[id])
      ensures result.Ok? ==> fresh(result.value) && result.value.id == id && result.value.state == Leased
                             && SavedAs(result.value.View()) && NodesAssigned(result.value.View())
      ensures result.Err? && result.error.RuntimeError? ==> store.requests[id].state == Errored
      ensures result.Err? && !result.error.RuntimeError? ==> store.Contents() == TablesAfter(reached)
      ensures alone ==> seen == old(steps) && TablesAfter(reached) == old(store.Contents())
      ensures alone && result.Err? && !result.error.RuntimeError? ==> runtime.fleet == old(runtime.fleet)
      ensures alone && (result.Ok? || result.error.RuntimeError?) ==>
                Allotted(old(store.Contents()), store.Contents(), store.requests[id])
      ensures var db := TablesAfter(seen);
              result.Err? && !result.error.RuntimeError? ==>
                result.error == if !Readable(db, id, expected) then ReadError(db, id)
                                else ApprovalError(db.requests[id], TablesAfter(reached), actor, dcn, candidates, now)
    {
      result, seen := Read(me, id, actor, expected, ToApprove);
      reached := seen;
      if result.Err? { return; }
      ghost var read := steps;
      var error;
      error, reached := DecideAndAllocate(me, result.value, actor, candidates, now);
      Earlier(seen, read, reached);
      if error.Some? { return Err(error.value), seen, reached; }
    }

    /** The approval once the request is read. */
    method DecideAndAllocate(me: nat, item: AccessRequest, actor: Actor, candidates: seq<OfferCandidate>, now: int)
      returns (error: Option<Error>, ghost reached: seq<Step>)
      requires Valid() && me in tasks && tasks[me] == RequestTask(actor, item.View(), ToApprove)
      modifies this, store, runtime, item
      ensures Valid() && Awaited(old(steps), reached, me) && me !in tasks
      ensures Continues(old(steps), steps, me)
      ensures reached + [Continue(me, Offers(candidates, now))] <= steps
      ensures reached <= steps
      ensures error.None? || error.value.RuntimeError? <==>
                Approvable(old(item.View()), TablesAfter(reached), actor, dcn, candidates, now)
      ensures error.None? || error.value.RuntimeError? ==>
                && SavedAs(item.View()) && NodesReserved(item.View())
                && SameLease(old(item.View()).Approve(actor, dcn, candidates, now).value, item.View())
      ensures error.None? ==> item.state == Leased && NodesAssigned(item.View())
      ensures error.Some? && error.value.RuntimeError? ==> item.state == Errored
      ensures error.Some? && !error.value.RuntimeError? ==>
                store.Contents() == TablesAfter(reached) && steps == reached + [Continue(me, Offers(candidates, now))]
      ensures alone ==> reached == old(steps)
      ensures alone && error.Some? && !error.value.RuntimeError? ==> runtime.fleet == old(runtime.fleet)
      ensures alone && old(SavedAs(item.View())) && (error.None? || error.value.RuntimeError?) ==>
                Allotted(old(store.Contents()), store.Contents(), item.View())
      ensures error.Some? && !error.value.RuntimeError? ==>
                error.value == ApprovalError(old(item.View()), TablesAfter(reached), actor, dcn, candidates, now)
    {
      error, reached := Decide(me, item, actor, candidates, now);
      if error.Some? { return; }
      ghost var approved, middle, saved := item.View(), store.Contents(), steps;
      error := Allocate(me, item, actor);
      Earlier(reached, saved, steps);
      if alone && old(SavedAs(item.View())) {
        AllottedAndWritten(old(store.Contents()), middle, store.Contents(), approved, item.View());
      }
    }

    /** The await and the read of a decision. `seen` is the moment of the read. */
    method Read(me: nat, id: string, actor: Actor, expected: Option<int>, place: Place)
      returns (result: Result<AccessRequest>, ghost seen: seq<Step>)
      requires Valid() && me !in tasks
      requires place.ToApprove? || place.ToReject? || place.ToCancel?
      modifies this, store, runtime
      ensures Valid() && Awaited(old(steps), seen, me) && store.Contents() == TablesAfter(seen)
      ensures Begun(steps, me) == Begun(old(steps), me)
                                  + if result.Ok? then [BeginStep(me, id, actor, expected, place)] else []
      ensures steps == if result.Ok? then seen + [BeginStep(me, id, actor, expected, place)] else seen
      ensures result.Ok? <==> Readable(TablesAfter(seen), id, expected)
      ensures result.Ok? ==> fresh(result.value) && result.value.id == id && SavedAs(result.value.View())
                             && me in tasks && tasks[me] == RequestTask(actor, result.value.View(), place)
      ensures result.Err? ==> me !in tasks && !result.error.RuntimeError?
      ensures alone ==> seen == old(steps)
                        && store.Contents() == old(store.Contents()) && runtime.fleet == old(runtime.fleet)
      ensures result.Err? ==> result.error == ReadError(TablesAfter(seen), id)
    {
      seen := Await(me);
      result := ReadStep(me, id, actor, expected, place);
    }

    /** The approval itself, up to the reservation. */
    method Decide(me: nat, item: AccessRequest, actor: Actor, candidates: seq<OfferCandidate>, now: int)
      returns (error: Option<Error>, ghost reached: seq<Step>)
      requires Valid() && me in tasks && tasks[me] == RequestTask(actor, item.View(), ToApprove)
      modifies this, store, runtime, item
      ensures Valid() && Awaited(old(steps), reached, me) && steps == reached + [Continue(me, Offers(candidates, now))]
      ensures Continues(old(steps), steps, me)
      ensures error.None? <==> Approvable(old(item.View()), TablesAfter(reached), actor, dcn, candidates, now)
      ensures error.None? ==> old(item.View()).Approve(actor, dcn, candidates, now) == Ok(item.View())
                              && me in tasks && tasks[me] == RequestTask(actor, item.View(), ToStartAllocation)
      ensures error.Some? ==> me !in tasks && !error.value.RuntimeError? && store.Contents() == TablesAfter(reached)
      ensures alone ==> reached == old(steps) && runtime.fleet == old(runtime.fleet)
      ensures alone && error.None? && old(SavedAs(item.View())) ==>
                Allotted(old(store.Contents()), store.Contents(), item.View())
      ensures error.Some? ==>
                error.value == ApprovalError(old(item.View()), TablesAfter(reached), actor, dcn, candidates, now)
    {
      Others(me);
      ghost var was := item.View();
      var expected := item.version;
      error := item.Approve(actor, dcn, candidates, now);
      if error.Some? {
        reached := RaiseApproval(me, was, actor, candidates, now);
      } else {
        error, reached := SaveApproval(me, item, was, expected, actor, candidates, now);
      }
    }

    method RaiseApproval(me: nat, ghost was: Request, actor: Actor, candidates: seq<OfferCandidate>, now: int)
      returns (ghost reached: seq<Step>)
      requires Valid() && me in tasks && tasks[me] == RequestTask(actor, was, ToApprove)
      requires was.Approve(actor, dcn, candidates, now).Err?
      modifies this
      ensures Valid() && reached == old(steps) && steps == reached + [Continue(me, Offers(candidates, now))]
      ensures Continues(old(steps), steps, me) && me !in tasks && store.Contents() == TablesAfter(reached)
    {
      reached := steps;
      RaiseStep(me, Offers(candidates, now));
    }

    method SaveApproval(me: nat, item: AccessRequest, ghost was: Request, expected: int, actor: Actor,
                        ghost candidates: seq<OfferCandidate>, ghost now: int)
      returns (error: Option<Error>, ghost reached: seq<Step>)
      requires Valid() && me in tasks && tasks[me] == RequestTask(actor, was, ToApprove)
      requires was.Approve(actor, dcn, candidates, now) == Ok(item.View())
      requires item.id == was.id && expected == was.version
      modifies this, store, runtime
      ensures Valid() && Awaited(old(steps), reached, me) && steps == reached + [Continue(me, Offers(candidates, now))]
      ensures Continues(old(steps), steps, me)
      ensures error.None? <==> CanReserve(TablesAfter(reached), item.View(), expected)
      ensures error.None? ==> me in tasks && tasks[me] == RequestTask(actor, item.View(), ToStartAllocation)
      ensures error.Some? ==> me !in tasks && !error.value.RuntimeError? && store.Contents() == TablesAfter(reached)
      ensures alone ==> reached == old(steps) && runtime.fleet == old(runtime.fleet)
      ensures alone && error.None? && old(SavedAs(was)) ==>
                Allotted(old(store.Contents()), store.Contents(), item.View())
      ensures error.Some? ==> error.value == if AtVersion(TablesAfter(reached), item.id, expected)
                                             then NodeAlreadyReserved else StaleError(TablesAfter(reached), item.id)
    {
      if SavedAs(was) { ApprovalAllots(store.Contents(), was, actor, dcn, candidates, now); }
      reached := Await(me);
      error := ReserveStep(me, item, was, expected, actor, candidates, now);
    }

    /** From `approved` to `leased`, or to `error` when an assignment fails. */
    method Allocate(me: nat, item: AccessRequest, actor: Actor) returns (error: Option<Error>)
      requires Valid() && me in tasks && tasks[me] == RequestTask(actor, item.View(), ToStartAllocation)
      modifies this, store, runtime, item
      ensures Valid() && Continues(old(steps), steps, me) && me !in tasks
      ensures SavedAs(item.View()) && NodesReserved(item.View())
      ensures error.None? ==> item.state == Leased && NodesAssigned(item.View())
      ensures error.Some? ==> item.state == Errored && error.value.RuntimeError?
      ensures alone ==> RowWritten(old(store.Contents()), store.Contents(), item.View(), false)
      ensures SameLease(old(item.View()), item.View())
    {
      var failure := AssignAll(me, item, actor);
      ghost var allocating, middle := item.View(), store.Contents();
      if failure.Some? {
        FailAllocation(me, item, actor, failure.value);
        error := Some(RuntimeError(failure.value));
      } else {
        Lease(me, item, actor);
        error := None;
      }
      if alone { RowsWritten(old(store.Contents()), middle, store.Contents(), allocating, item.View(), false); }
    }

    method FailAllocation(me: nat, item: AccessRequest, actor: Actor, text: string)
      requires Valid() && me in tasks && tasks[me] == RequestTask(actor, item.View(), ToRecordAllocationFailure(text))
      modifies this, store, runtime, item
      ensures Valid() && Continues(old(steps), steps, me) && me !in tasks
      ensures item.state == Errored && SavedAs(item.View()) && NodesReserved(item.View())
      ensures alone ==> RowWritten(old(store.Contents()), store.Contents(), item.View(), false)
      ensures SameLease(old(item.View()), item.View())
    {
      Quarantine(me, item, actor, ToRecordAllocationFailure(text), text, AllocationFailed);
    }

    /** Every node is assigned: the request is leased. */
    method Lease(me: nat, item: AccessRequest, actor: Actor)
      requires Valid() && me in tasks && tasks[me] == RequestTask(actor, item.View(), ToAssign(|item.nodes|))
      modifies this, store, runtime, item
      ensures Valid() && Continues(old(steps), steps, me) && me !in tasks
      ensures item.state == Leased && SavedAs(item.View()) && NodesReserved(item.View()) && NodesAssigned(item.View())
      ensures alone ==> RowWritten(old(store.Contents()), store.Contents(), item.View(), false)
      ensures SameLease(old(item.View()), item.View())
    {
      Complete(me, item, actor, ToAssign(|item.nodes|), Allocating, Leased, AllocationCompleted, false);
      LeasedMeansAssigned(start, steps, item.id);
    }

    /** allocation_started, and the assignment loop up to the first exception. */
    method AssignAll(me: nat, item: AccessRequest, actor: Actor) returns (failure: Option<string>)
      requires Valid() && me in tasks && tasks[me] == RequestTask(actor, item.View(), ToStartAllocation)
      modifies this, store, runtime, item
      ensures Valid() && Continues(old(steps), steps, me)
      ensures me in tasks && tasks[me] == RequestTask(actor, item.View(),
                if failure.None? then ToAssign(|item.nodes|) else ToRecordAllocationFailure(failure.value))
      ensures alone ==> RowWritten(old(store.Contents()), store.Contents(), item.View(), false)
      ensures SameLease(old(item.View()), item.View())
    {
      CarryOn(me, item, actor, ToStartAllocation, Approved, Allocating, AllocationStarted, ToAssign(0));
      ghost var done;
      failure, done := AssignNodes(me, item, actor);
    }

    /** One round of the assignment loop: the nodes passed before have the lessee, whatever the call does. */
    method AssignNext(me: nat, item: AccessRequest, i: nat, actor: Actor) returns (failure: Option<string>)
      requires Valid() && me in tasks && tasks[me] == RequestTask(actor, item.View(), ToAssign(i)) && i < |item.nodes|
      modifies this, store, runtime
      ensures Valid() && Continues(old(steps), steps, me) && Own(steps, me) == Own(old(steps), me) + 1
      ensures me in tasks && tasks[me] == RequestTask(actor, item.View(),
                if failure.None? then ToAssign(i + 1) else ToRecordAllocationFailure(failure.value))
      ensures forall j | 0 <= j < i :: HasLessee(runtime.fleet, item.nodes[j], item.projectId)
      ensures alone ==> store.Contents() == old(store.Contents())
    {
      Others(me);
      ReachedProgress(start, steps, me);
      failure := AssignStep(me, item, i, actor);
    }

    /** The assignment loop. `done` nodes were assigned; a failure is that of the next node, and the last call made. */
    method AssignNodes(me: nat, item: AccessRequest, actor: Actor) returns (failure: Option<string>, ghost done: nat)
      requires Valid() && me in tasks && tasks[me] == RequestTask(actor, item.View(), ToAssign(0))
      modifies this, store, runtime
      ensures Valid() && Continues(old(steps), steps, me)
      ensures me in tasks && tasks[me] == RequestTask(actor, item.View(),
                if failure.None? then ToAssign(|item.nodes|) else ToRecordAllocationFailure(failure.value))
      ensures if failure.None? then done == |item.nodes| else done < |item.nodes|
      ensures Own(steps, me) == Own(old(steps), me) + done + (if failure.None? then 0 else 1)
      ensures forall j | 0 <= j < done ::
                && item.nodes[j] in runtime.fleet.nodes
                && runtime.fleet.nodes[item.nodes[j]].lessee == Some(item.projectId)
      ensures alone ==> store.Contents() == old(store.Contents())
    {
      var i := 0;
      while i < |item.nodes|
        invariant Valid() && Continues(old(steps), steps, me) && i <= |item.nodes|
        invariant me in tasks && tasks[me] == RequestTask(actor, item.View(), ToAssign(i))
        invariant Own(steps, me) == Own(old(steps), me) + i
        invariant alone ==> store.Contents() == old(store.Contents())
      {
        failure := AssignNext(me, item, i, actor);
        if failure.Some? { return failure, i; }
        i := i + 1;
      }
      ReachedProgress(start, steps, me);
      return None, i;
    }

    /** A transition inside an allocation or a return: it cannot fail. */
    method CarryOn(me: nat, item: AccessRequest, actor: Actor, ghost place: Place,
                   from: RequestState, to: RequestState, action: Action, next: Place)
      requires Valid() && me in tasks && tasks[me] == RequestTask(actor, item.View(), place)
      requires Carries(place) == Some(from)
      requires PlannedSave(dcn, actor, item.View(), place)
                 == Some(Plan(item.View().Transition(from, to), action, false, Some(next)))
      modifies this, store, runtime, item
      ensures Valid() && Continues(old(steps), steps, me)
      ensures me in tasks && tasks[me] == RequestTask(actor, item.View(), next)
      ensures item.View() == old(item.View()).(state := to, version := old(item.version) + 1) && SavedAs(item.View())
      ensures alone ==> RowWritten(old(store.Contents()), store.Contents(), item.View(), false)
    {
      ReachedOwner(start, steps, me);
      ghost var was := item.View();
      var expected := item.version;
      var error := item.Transition(from, to);
      Others(me);
      error := SaveStep(me, item, was, place, expected, actor, action, false, Some(next));
    }

    /** The last transition of an allocation or a return: it cannot fail either. */
    method Complete(me: nat, item: AccessRequest, actor: Actor, ghost place: Place,
                    from: RequestState, to: RequestState, action: Action, release: bool)
      requires Valid() && me in tasks && tasks[me] == RequestTask(actor, item.View(), place)
      requires Carries(place) == Some(from)
      requires PlannedSave(dcn, actor, item.View(), place)
                 == Some(Plan(item.View().Transition(from, to), action, release, None))
      modifies this, store, runtime, item
      ensures Valid() && Continues(old(steps), steps, me) && me !in tasks
      ensures item.View() == old(item.View()).(state := to, version := old(item.version) + 1)
      ensures SavedAs(item.View())
      ensures release ==> forall n | n in item.nodes :: n !in store.reservations
      ensures alone ==> RowWritten(old(store.Contents()), store.Contents(), item.View(), release)
    {
      ReachedOwner(start, steps, me);
      ghost var was := item.View();
      var expected := item.version;
      var error := item.Transition(from, to);
      Others(me);
      ReachedOwner(start, steps, me);
      ReachedReservations(start, steps, item.id);
      error := SaveStep(me, item, was, place, expected, actor, action, release, None);
    }

    /** The failure path of an allocation or a return: the request goes to `error` and keeps its reservations. */
    method Quarantine(me: nat, item: AccessRequest, actor: Actor, ghost place: Place, text: string, action: Action)
      requires Valid() && me in tasks && tasks[me] == RequestTask(actor, item.View(), place) && Carries(place).Some?
      requires PlannedSave(dcn, actor, item.View(), place)
                 == Some(Plan(item.View().MarkError(text), action, false, None))
      modifies this, store, runtime, item
      ensures Valid() && Continues(old(steps), steps, me) && me !in tasks
      ensures item.state == Errored && SavedAs(item.View()) && NodesReserved(item.View())
      ensures item.View() == old(item.View()).(state := Errored, reason := item.reason, version := item.version)
      ensures alone ==> RowWritten(old(store.Contents()), store.Contents(), item.View(), false)
    {
      ReachedOwner(start, steps, me);
      ghost var was := item.View();
      var expected := item.version;
      var error := item.MarkError(text);
      Others(me);
      error := SaveStep(me, item, was, place, expected, actor, action, false, None);
      ReachedReservations(start, steps, item.id);
    }

    /** The first save of a call, or the end of the call when the domain method `raised`. `reached` is the moment
        of either. */
    method SaveOrRaise(me: nat, item: AccessRequest, ghost was: Request, ghost place: Place, expected: int,
                       actor: Actor, action: Action, next: Option<Place>, raised: Option<Error>)
      returns (error: Option<Error>, ghost reached: seq<Step>)
      requires Valid() && me in tasks && tasks[me] == RequestTask(actor, was, place)
      requires item.id == was.id && expected == was.version && Carries(place).None?
      requires if raised.None?
               then PlannedSave(dcn, actor, was, place) == Some(Plan(Ok(item.View()), action, false, next))
               else !raised.value.RuntimeError? && PlannedSave(dcn, actor, was, place).Some?
                    && PlannedSave(dcn, actor, was, place).value.made.Err?
      modifies this, store, runtime
      ensures Valid() && Awaited(old(steps), reached, me) && steps == reached + [Continue(me, Nothing)]
      ensures Continues(old(steps), steps, me)
      ensures error.None? <==> raised.None? && AtVersion(TablesAfter(reached), item.id, expected)
      ensures error.None? ==>
                item.id in TablesAfter(reached).requests
                && store.Contents() == Tables.Save(TablesAfter(reached), item.View(),
                                                   actor.userId, actor.projectId, action, false)
      ensures error.Some? ==> store.Contents() == TablesAfter(reached)
      ensures error.None? ==> SavedAs(item.View())
                              && if next.None? then me !in tasks
                                 else me in tasks && tasks[me] == RequestTask(actor, item.View(), next.value)
      ensures error.Some? ==> me !in tasks && !error.value.RuntimeError?
      ensures alone ==> reached == old(steps) && runtime.fleet == old(runtime.fleet)
      ensures error.Some? ==> error == if raised.Some? then raised else Some(StaleError(TablesAfter(reached), item.id))
    {
      if raised.Some? {
        reached := steps;
        RaiseStep(me, Nothing);
        error := raised;
      } else {
        reached := Await(me);
        error := SaveStep(me, item, was, place, expected, actor, action, false, next);
      }
    }

    /** Reject and cancel: read, decide, save. `seen` and `reached` are the moments of the read and of the save, or of
        the exception: whatever others do, they decide the outcome, and a call that raises writes nothing. */
    method Reject(me: nat, id: string, actor: Actor, text: string, expected: Option<int>)
      returns (result: Result<AccessRequest>, ghost seen: seq<Step>, ghost reached: seq<Step>)
      requires Valid() && me !in tasks
      modifies this, store, runtime
      ensures Valid() && Awaited(old(steps), seen, me) && seen <= reached <= steps && me !in tasks
      ensures Begun(steps, me) == Begun(old(steps), me) +
              if Readable(TablesAfter(seen), id, expected) then [BeginReject(me, id, actor, expected, text)] else []
      ensures var db := TablesAfter(seen);
              if Readable(db, id, expected)
              then Awaited(seen + [BeginReject(me, id, actor, expected, text)], reached, me)
                   && steps == reached + [Continue(me, Nothing)]
              else steps == reached == seen
      ensures var db := TablesAfter(seen);
              result.Ok? <==> Readable(db, id, expected) && db.requests[id].Reject(actor, dcn, text).Ok?
                              && AtVersion(TablesAfter(reached), id, db.requests[id].version)
      ensures result.Ok? ==>
                && result.value.id == id
                && result.value.View() == TablesAfter(seen).requests[id].Reject(actor, dcn, text).value
                && store.Contents() == Tables.Save(TablesAfter(reached), result.value.View(),
                                                   actor.userId, actor.projectId, Action.Reject, false)
      ensures result.Err? ==> store.Contents() == TablesAfter(reached)
      ensures alone ==> seen == old(steps) && TablesAfter(reached) == old(store.Contents())
      ensures var db := TablesAfter(seen);
              result.Err? ==>
                result.error == if id !in db.requests then NotFound
                                else DecisionError(db, TablesAfter(reached), id, expected,
                                                   db.requests[id].Reject(actor, dcn, text))
    {
      result, seen := Read(me, id, actor, expected, ToReject(text));
      reached := seen;
      if result.Err? { return; }
      ghost var was, read := result.value.View(), steps;
      var version := result.value.version;
      var error := result.value.Reject(actor, dcn, text);
      error, reached := SaveOrRaise(me, result.value, was, ToReject(text), version, actor, Action.Reject, None, error);
      Earlier(seen, read, reached);
      if error.Some? { return Err(error.value), seen, reached; }
    }

    method Cancel(me: nat, id: string, actor: Actor, expected: Option<int>)
      returns (result: Result<AccessRequest>, ghost seen: seq<Step>, ghost reached: seq<Step>)
      requires Valid() && me !in tasks
      modifies this, store, runtime
      ensures Valid() && Awaited(old(steps), seen, me) && seen <= reached <= steps && me !in tasks
      ensures Begun(steps, me) == Begun(old(steps), me) +
              if Readable(TablesAfter(seen), id, expected) then [BeginCancel(me, id, actor, expected)] else []
      ensures var db := TablesAfter(seen);
              if Readable(db, id, expected)
              then Awaited(seen + [BeginCancel(me, id, actor, expected)], reached, me)
                   && steps == reached + [Continue(me, Nothing)]
              else steps == reached == seen
      ensures var db := TablesAfter(seen);
              result.Ok? <==> Readable(db, id, expected) && db.requests[id].Cancel(actor).Ok?
                              && AtVersion(TablesAfter(reached), id, db.requests[id].version)
      ensures result.Ok? ==>
                && result.value.id == id && result.value.View() == TablesAfter(seen).requests[id].Cancel(actor).value
                && store.Contents() == Tables.Save(TablesAfter(reached), result.value.View(),
                                                   actor.userId, actor.projectId, Action.Cancel, false)
      ensures result.Err? ==> store.Contents() == TablesAfter(reached)
      ensures alone ==> seen == old(steps) && TablesAfter(reached) == old(store.Contents())
      ensures var db := TablesAfter(seen);
              result.Err? ==>
                result.error == if id !in db.requests then NotFound
                                else DecisionError(db, TablesAfter(reached), id, expected,
                                                   db.requests[id].Cancel(actor))
    {
      result, seen := Read(me, id, actor, expected, ToCancel);
      reached := seen;
      if result.Err? { return; }
      ghost var was, read := result.value.View(), steps;
      var version := result.value.version;
      var error := result.value.Cancel(actor);
      error, reached := SaveOrRaise(me, result.value, was, ToCancel, version, actor, Action.Cancel, None, error);
      Earlier(seen, read, reached);
      if error.Some? { return Err(error.value), seen, reached; }
    }

    // ---- returning a lease ----

    method ReadForReturnStep(me: nat, id: string, actor: Actor, expected: Option<int>)
      returns (result: Result<AccessRequest>)
      requires Valid() && me !in tasks
      modifies this
      ensures Valid()
      ensures Begun(steps, me) == Begun(old(steps), me)
                                  + if result.Ok? then [Step.BeginReturn(me, id, actor, expected)] else []
      ensures steps == if result.Ok? then old(steps) + [Step.BeginReturn(me, id, actor, expected)] else old(steps)
      ensures result.Ok? <==> id in store.requests
      ensures result.Ok? ==> fresh(result.value) && result.value.View() == store.requests[id] && result.value.id == id
                             && tasks == old(tasks)[
                                  me := RequestTask(actor, result.value.View(), ToCheckOperations(expected))]
      ensures result.Err? ==> me !in tasks && !result.error.RuntimeError?
      ensures result.Err? ==> result.error == NotFound
    {
      result := store.Get(id);
      if result.Ok? {
        ReachedRow(start, steps, id);
        ghost var was := Now();
        tasks := tasks[me := RequestTask(actor, result.value.View(), ToCheckOperations(expected))];
        Took(me, Step.BeginReturn(me, id, actor, expected), was);
      }
    }

    /** Check that no operation of the request is active, and then the version the caller saw. */
    method CheckStep(me: nat, item: AccessRequest, actor: Actor, expected: Option<int>) returns (error: Option<Error>)
      requires Valid() && me in tasks && tasks[me] == RequestTask(actor, item.View(), ToCheckOperations(expected))
      modifies this
      ensures Valid() && steps == old(steps) + [Continue(me, Nothing)]
      ensures Continues(old(steps), steps, me)
      ensures error.None? <==> !RequestBusy(store.Contents(), item.id) && AsExpected(item.View(), expected)
      ensures error.None? ==> tasks == old(tasks)[me := RequestTask(actor, item.View(), ToRequestReturn)]
      ensures error.Some? ==> me !in tasks && !error.value.RuntimeError?
      ensures error.Some? ==>
                error.value == if RequestBusy(store.Contents(), item.id) then DomainError else VersionConflict
    {
      ghost var was := Now();
      if store.HasActiveOperations(item.id) {
        error := Some(DomainError);
      } else if expected.Some? && item.version != expected.value {
        error := Some(VersionConflict);
      } else {
        error := None;
      }
      tasks := if error.None? then tasks[me := RequestTask(actor, item.View(), ToRequestReturn)] else tasks - {me};
      Took(me, Continue(me, Nothing), was);
    }

    /** Whether a return that nobody interrupts takes the request over. */
    predicate MayBeginReturn(id: string, actor: Actor, expected: Option<int>)
      reads this, store
    {
      ReturnLands(store.Contents(), store.Contents(), store.Contents(), dcn, id, actor, expected)
    }

    /** The await and the read of a return. */
    method ReadReturn(me: nat, id: string, actor: Actor, expected: Option<int>)
      returns (result: Result<AccessRequest>, ghost seen: seq<Step>)
      requires Valid() && me !in tasks
      modifies this, store, runtime
      ensures Valid() && Awaited(old(steps), seen, me) && store.Contents() == TablesAfter(seen)
      ensures steps == if result.Ok? then seen + [Step.BeginReturn(me, id, actor, expected)] else seen
      ensures Begun(steps, me) == Begun(old(steps), me)
                                  + if result.Ok? then [Step.BeginReturn(me, id, actor, expected)] else []
      ensures result.Ok? <==> id in TablesAfter(seen).requests
      ensures result.Ok? ==> fresh(result.value) && result.value.id == id
                             && result.value.View() == TablesAfter(seen).requests[id]
                             && me in tasks
                             && tasks[me] == RequestTask(actor, result.value.View(), ToCheckOperations(expected))
      ensures result.Err? ==> me !in tasks && !result.error.RuntimeError?
      ensures alone ==> store.Contents() == old(store.Contents())
      ensures result.Err? ==> result.error == NotFound
    {
      seen := Await(me);
      result := ReadForReturnStep(me, id, actor, expected);
    }

    /** The await and the check of a return. */
    method CheckReturn(me: nat, item: AccessRequest, actor: Actor, expected: Option<int>)
      returns (error: Option<Error>, ghost checked: seq<Step>)
      requires Valid() && me in tasks && tasks[me] == RequestTask(actor, item.View(), ToCheckOperations(expected))
      modifies this, store, runtime
      ensures Valid() && Awaited(old(steps), checked, me) && store.Contents() == TablesAfter(checked)
      ensures steps == checked + [Continue(me, Nothing)] && Continues(old(steps), steps, me)
      ensures error.None? <==> !RequestBusy(TablesAfter(checked), item.id) && AsExpected(item.View(), expected)
      ensures error.None? ==> me in tasks && tasks[me] == RequestTask(actor, item.View(), ToRequestReturn)
      ensures error.Some? ==> me !in tasks && !error.value.RuntimeError?
      ensures alone ==> store.Contents() == old(store.Contents())
      ensures error.Some? ==>
                error.value == if RequestBusy(TablesAfter(checked), item.id) then DomainError else VersionConflict
    {
      checked := Await(me);
      error := CheckStep(me, item, actor, expected);
    }

    /** The read and the check of a return. */
    method ReadForReturn(me: nat, id: string, actor: Actor, expected: Option<int>)
      returns (result: Result<AccessRequest>, ghost seen: seq<Step>, ghost checked: seq<Step>)
      requires Valid() && me !in tasks
      modifies this, store, runtime
      ensures Valid() && Awaited(old(steps), seen, me) && seen <= checked <= steps
      ensures Begun(steps, me) == Begun(old(steps), me)
                                  + if id in TablesAfter(seen).requests
                                    then [Step.BeginReturn(me, id, actor, expected)] else []
      ensures store.Contents() == TablesAfter(checked)
      ensures if id in TablesAfter(seen).requests
              then Awaited(seen + [Step.BeginReturn(me, id, actor, expected)], checked, me)
                   && steps == checked + [Continue(me, Nothing)]
              else steps == checked == seen
      ensures result.Ok? <==> Readable(TablesAfter(seen), id, expected) && !RequestBusy(TablesAfter(checked), id)
      ensures result.Ok? ==> fresh(result.value) && result.value.id == id
                             && result.value.View() == TablesAfter(seen).requests[id]
                             && me in tasks && tasks[me] == RequestTask(actor, result.value.View(), ToRequestReturn)
      ensures result.Err? ==> me !in tasks && !result.error.RuntimeError?
      ensures alone ==> TablesAfter(seen) == TablesAfter(checked) == store.Contents() == old(store.Contents())
      ensures result.Err? ==>
                result.error == if id !in TablesAfter(seen).requests then NotFound
                                else if RequestBusy(TablesAfter(checked), id) then DomainError else VersionConflict
    {
      result, seen := ReadReturn(me, id, actor, expected);
      checked := seen;
      if result.Err? { return; }
      ghost var read := steps;
      var error;
      error, checked := CheckReturn(me, result.value, actor, expected);
      Earlier(seen, read, checked);
      if error.Some? { return Err(error.value), seen, checked; }
    }

    /** return_requested: the save that takes the request over. */
    method AskToReturn(me: nat, item: AccessRequest, actor: Actor)
      returns (error: Option<Error>, ghost reached: seq<Step>)
      requires Valid() && me in tasks && tasks[me] == RequestTask(actor, item.View(), ToRequestReturn)
      modifies this, store, runtime, item
      ensures Valid() && Awaited(old(steps), reached, me) && steps == reached + [Continue(me, Nothing)]
      ensures Continues(old(steps), steps, me)
      ensures error.None? <==> old(item.View()).RequestReturn(actor, dcn).Ok?
                               && AtVersion(TablesAfter(reached), item.id, old(item.version))
      ensures error.None? ==> SameLease(old(item.View()), item.View())
                              && me in tasks && tasks[me] == RequestTask(actor, item.View(), ToStartCleaning)
      ensures error.Some? ==> me !in tasks && !error.value.RuntimeError? && store.Contents() == TablesAfter(reached)
      ensures alone ==> reached == old(steps) && runtime.fleet == old(runtime.fleet)
      ensures alone && old(SavedAs(item.View())) && error.None? ==>
                RowWritten(old(store.Contents()), store.Contents(), item.View(), false)
      ensures error.Some? ==>
                error.value == if old(item.View()).RequestReturn(actor, dcn).Err? then DomainError
                               else StaleError(TablesAfter(reached), item.id)
    {
      ghost var was := item.View();
      var expected := item.version;
      error := item.RequestReturn(actor, dcn);
      error, reached := SaveOrRaise(me, item, was, ToRequestReturn, expected, actor, AskedToReturn,
                                    Some(ToStartCleaning), error);
    }

    /** From the decision to return to `cleaning`. */
    method TakeOver(me: nat, item: AccessRequest, actor: Actor) returns (error: Option<Error>, ghost reached: seq<Step>)
      requires Valid() && me in tasks && tasks[me] == RequestTask(actor, item.View(), ToRequestReturn)
      modifies this, store, runtime, item
      ensures Valid() && Awaited(old(steps), reached, me) && reached + [Continue(me, Nothing)] <= steps
      ensures Continues(old(steps), steps, me)
      ensures reached <= steps
      ensures error.None? <==> old(item.View()).RequestReturn(actor, dcn).Ok?
                               && AtVersion(TablesAfter(reached), item.id, old(item.version))
      ensures error.None? ==> item.state == Cleaning && SavedAs(item.View()) && SameLease(old(item.View()), item.View())
                              && me in tasks && tasks[me] == RequestTask(actor, item.View(), ToCompleteReturn)
      ensures error.Some? ==> steps == reached + [Continue(me, Nothing)]
      ensures error.Some? ==> me !in tasks && !error.value.RuntimeError? && store.Contents() == TablesAfter(reached)
      ensures alone ==> TablesAfter(reached) == old(store.Contents())
      ensures alone && old(SavedAs(item.View())) && error.None? ==>
                RowWritten(old(store.Contents()), store.Contents(), item.View(), false)
      ensures error.Some? ==>
                error.value == if old(item.View()).RequestReturn(actor, dcn).Err? then DomainError
                               else StaleError(TablesAfter(reached), item.id)
    {
      error, reached := AskToReturn(me, item, actor);
      if error.Some? { return; }
      ghost var asked, middle, saved := item.View(), store.Contents(), steps;
      CarryOn(me, item, actor, ToStartCleaning, ReturnRequested, Cleaning, CleaningStarted, ToCompleteReturn);
      Earlier(reached, saved, steps);
      if alone && old(SavedAs(item.View())) {
        RowsWritten(old(store.Contents()), middle, store.Contents(), asked, item.View(), false);
      }
    }

    /** What the moments of a return find decides whether it takes the request over. */
    ghost predicate Lands(at: Moments, id: string, actor: Actor, expected: Option<int>) {
      ReturnLands(TablesAfter(at.seen), TablesAfter(at.checked), TablesAfter(at.reached), dcn, id, actor, expected)
    }

    /** The moments of a return follow one another by the steps of task `me` that read and check, and only others go
        on between; a return that is refused has no later moment. */
    ghost predicate Pinned(at: Moments, me: nat, id: string, actor: Actor, expected: Option<int>) {
      && (if id in TablesAfter(at.seen).requests
          then Awaited(at.seen + [Step.BeginReturn(me, id, actor, expected)], at.checked, me)
          else at.reached == at.checked == at.seen)
      && (if Readable(TablesAfter(at.seen), id, expected) && !RequestBusy(TablesAfter(at.checked), id)
          then Awaited(at.checked + [Continue(me, Nothing)], at.reached, me)
          else at.reached == at.checked)
    }

    /** The moments are those of a return that task `me` has made since `before`, and it has begun nothing else. */
    ghost predicate Traced(before: seq<Step>, at: Moments, me: nat, id: string, actor: Actor, expected: Option<int>)
      reads this
    {
      && Awaited(before, at.seen, me) && at.Between(before, steps) && Pinned(at, me, id, actor, expected)
      && Begun(steps, me) == Begun(before, me)
                             + (if id in TablesAfter(at.seen).requests
                                then [Step.BeginReturn(me, id, actor, expected)] else [])
    }

    /** The return has ended before it wrote anything, at the last of its moments or with the step after it. */
    ghost predicate TurnedDown(at: Moments, me: nat)
      reads this, store
    {
      && store.Contents() == TablesAfter(at.reached)
      && (steps == at.reached || steps == at.reached + [Continue(me, Nothing)])
    }

    /** The request is in `error` with its nodes reserved. */
    ghost predicate Quarantined(id: string)
      reads this, store, runtime
    {
      id in store.requests && store.requests[id].state == Errored && NodesReserved(store.requests[id])
    }

    /** begin_return. A call that raises writes nothing; the last of `at` is then the moment before it raises. */
    method BeginReturn(me: nat, id: string, actor: Actor, expected: Option<int>)
      returns (result: Result<AccessRequest>, ghost at: Moments)
      requires Valid() && me !in tasks
      modifies this, store, runtime
      ensures Valid() && Traced(old(steps), at, me, id, actor, expected)
      ensures result.Ok? <==> Lands(at, id, actor, expected)
      ensures result.Ok? ==> fresh(result.value) && result.value.id == id && result.value.state == Cleaning
                             && SavedAs(result.value.View())
                             && SameLease(TablesAfter(at.seen).requests[id], result.value.View())
                             && me in tasks && tasks[me] == RequestTask(actor, result.value.View(), ToCompleteReturn)
      ensures result.Err? ==> me !in tasks && !result.error.RuntimeError? && TurnedDown(at, me)
      ensures alone ==> TablesAfter(at.seen) == TablesAfter(at.checked) == old(store.Contents())
                        && TablesAfter(at.reached) == old(store.Contents())
      ensures alone ==> (result.Ok? <==> old(MayBeginReturn(id, actor, expected)))
      ensures alone && result.Ok? ==> RowWritten(old(store.Contents()), store.Contents(), result.value.View(), false)
      ensures result.Err? ==>
                result.error == ReturnError(TablesAfter(at.seen), TablesAfter(at.checked), TablesAfter(at.reached), dcn,
                                            id, actor, expected)
    {
      ghost var seen, checked;
      result, seen, checked := ReadForReturn(me, id, actor, expected);
      at := Moments(seen, checked, checked);
      if result.Err? { return; }
      ghost var middle := steps;
      var error;
      ghost var reached;
      error, reached := TakeOver(me, result.value, actor);
      Earlier(checked, middle, reached);
      at := Moments(seen, checked, reached);
      if error.Some? { return Err(error.value), at; }
    }

    /** The call continues the return that this task has begun, or the request is not in `cleaning`. */
    predicate CompletesReturn(me: nat, id: string, actor: Actor, was: Request)
      reads this, store
    {
      if me in tasks then tasks[me] == RequestTask(actor, was, ToCompleteReturn) && was.id == id
      else !(id in store.requests && store.requests[id].state == Cleaning)
    }

    /** complete_return reads the row again. */
    method ReadAgainStep(me: nat, id: string, actor: Actor, ghost was: Request) returns (result: Result<AccessRequest>)
      requires Valid() && CompletesReturn(me, id, actor, was)
      modifies this
      ensures Valid() && Continues(old(steps), steps, me)
      ensures result.Ok? <==> id in store.requests && store.requests[id].state == Cleaning
      ensures result.Ok? ==> fresh(result.value) && result.value.View() == store.requests[id] && result.value.id == id
                             && tasks == old(tasks)[
                                  me := RequestTask(actor, result.value.View(), NextClean(result.value.View(), 0))]
      ensures result.Err? ==> me !in tasks && !result.error.RuntimeError?
      ensures result.Err? && me !in old(tasks) ==> Now() == old(Now())
      ensures result.Err? ==> result.error == if id in store.requests then DomainError else NotFound
    {
      ghost var before := Now();
      result := store.Get(id);
      if result.Ok? && result.value.state != Cleaning { result := Err(DomainError); }
      if result.Ok? {
        ReachedRow(start, steps, id);
        tasks := tasks[me := RequestTask(actor, result.value.View(), NextClean(result.value.View(), 0))];
      } else {
        tasks := tasks - {me};
      }
      ReadAgainIsStep(before, me, actor, was);
      Took(me, Continue(me, Nothing), before);
    }

    method CleanNodes(me: nat, item: AccessRequest, actor: Actor) returns (failure: Option<string>)
      requires Valid() && me in tasks && tasks[me] == RequestTask(actor, item.View(), NextClean(item.View(), 0))
      modifies this, store, runtime
      ensures Valid() && Continues(old(steps), steps, me)
      ensures me in tasks && tasks[me] == RequestTask(actor, item.View(),
                if failure.None? then ToClear(0) else ToRecordCleaningFailure(failure.value))
      ensures alone ==> store.Contents() == old(store.Contents())
    {
      failure := None;
      var done := 0;
      while done < |item.nodes|
        invariant Valid() && Continues(old(steps), steps, me) && done <= |item.nodes|
        invariant me in tasks && tasks[me] == RequestTask(actor, item.View(), NextClean(item.View(), done))
        invariant alone ==> store.Contents() == old(store.Contents())
      {
        Others(me);
        failure := CleanStep(me, item, done, actor);
        if failure.Some? { return; }
        done := done + 1;
      }
      return None;
    }

    method ClearNodes(me: nat, item: AccessRequest, actor: Actor) returns (failure: Option<string>)
      requires Valid() && me in tasks && tasks[me] == RequestTask(actor, item.View(), ToClear(0))
      modifies this, store, runtime
      ensures Valid() && Continues(old(steps), steps, me)
      ensures me in tasks && tasks[me] == RequestTask(actor, item.View(),
                if failure.None? then ToClear(|item.nodes|) else ToRecordCleaningFailure(failure.value))
      ensures alone ==> store.Contents() == old(store.Contents())
    {
      failure := None;
      var done := 0;
      while done < |item.nodes|
        invariant Valid() && Continues(old(steps), steps, me) && done <= |item.nodes|
        invariant me in tasks && tasks[me] == RequestTask(actor, item.View(), ToClear(done))
        invariant alone ==> store.Contents() == old(store.Contents())
      {
        Others(me);
        failure := ClearStep(me, item, done, actor);
        if failure.Some? { return; }
        done := done + 1;
      }
      return None;
    }

    /** Every node is cleaned and without lessee: the request is returned and its reservations go. */
    method Release(me: nat, item: AccessRequest, actor: Actor)
      requires Valid() && me in tasks && tasks[me] == RequestTask(actor, item.View(), ToClear(|item.nodes|))
      modifies this, store, runtime, item
      ensures Valid() && Continues(old(steps), steps, me) && me !in tasks
      ensures item.state == Returned && SavedAs(item.View()) && NodesFree(item.View())
      ensures alone ==> RowWritten(old(store.Contents()), store.Contents(), item.View(), true)
      ensures SameLease(old(item.View()), item.View())
    {
      Complete(me, item, actor, ToClear(|item.nodes|), Cleaning, Returned, CleaningCompleted, true);
      forall n | n in item.nodes && n !in store.reservations
        ensures n !in runtime.fleet.dirty && (n in runtime.fleet.nodes ==> runtime.fleet.nodes[n].lessee.None?)
      {
        FreeNodesAreClean(start, steps, n);
      }
    }

    method FailReturn(me: nat, item: AccessRequest, actor: Actor, text: string)
      requires Valid() && me in tasks && tasks[me] == RequestTask(actor, item.View(), ToRecordCleaningFailure(text))
      modifies this, store, runtime, item
      ensures Valid() && Continues(old(steps), steps, me) && me !in tasks
      ensures item.state == Errored && SavedAs(item.View()) && NodesReserved(item.View())
      ensures alone ==> RowWritten(old(store.Contents()), store.Contents(), item.View(), false)
      ensures SameLease(old(item.View()), item.View())
    {
      Quarantine(me, item, actor, ToRecordCleaningFailure(text), text, Action.CleaningFailed);
    }

    /** The nodes of a returned request: reserved for nobody, without lessee, and clean. */
    ghost predicate NodesFree(r: Request)
      reads this, store, runtime
    {
      forall n | n in r.nodes ::
        n !in store.reservations && n !in runtime.fleet.dirty
        && (n in runtime.fleet.nodes ==> runtime.fleet.nodes[n].lessee.None?)
    }

    /** Clean every node, then clear every lessee, then settle. */
    method Settle(me: nat, item: AccessRequest, actor: Actor) returns (failure: Option<string>)
      requires Valid() && me in tasks && tasks[me] == RequestTask(actor, item.View(), NextClean(item.View(), 0))
      modifies this, store, runtime, item
      ensures Valid() && Continues(old(steps), steps, me) && me !in tasks && SavedAs(item.View())
      ensures failure.None? ==> item.state == Returned && NodesFree(item.View())
      ensures failure.Some? ==> item.state == Errored && NodesReserved(item.View())
      ensures alone ==> RowWritten(old(store.Contents()), store.Contents(), item.View(), failure.None?)
      ensures SameLease(old(item.View()), item.View())
    {
      failure := CleanNodes(me, item, actor);
      if failure.None? { failure := ClearNodes(me, item, actor); }
      if failure.None? {
        Release(me, item, actor);
      } else {
        FailReturn(me, item, actor, failure.value);
      }
    }

    /** complete_return. A call that does not continue a return finds the request out of `cleaning` and raises. */
    method CompleteReturn(me: nat, id: string, actor: Actor, raiseOnError: bool, ghost was: Request)
      returns (result: Result<AccessRequest>, ghost reached: seq<Step>)
      requires Valid() && CompletesReturn(me, id, actor, was) && (me in tasks || alone || Ended(id))
      modifies this, store, runtime
      ensures Valid() && Awaited(old(steps), reached, me) && reached <= steps && me !in tasks
      ensures Continues(old(steps), steps, me)
      ensures me in old(tasks) ==>
                && id in store.requests && SameLease(was, store.requests[id])
                && ((store.requests[id].state == Returned && NodesFree(store.requests[id]))
                    || (store.requests[id].state == Errored && NodesReserved(store.requests[id])))
                && (result.Err? <==> raiseOnError && store.requests[id].state == Errored)
                && (result.Err? ==> result.error.RuntimeError?)
      ensures me !in old(tasks) ==>
                result.Err? && !result.error.RuntimeError? && store.Contents() == TablesAfter(reached)
      ensures me !in old(tasks) && alone ==> Now() == old(Now())
      ensures result.Ok? ==> fresh(result.value) && result.value.id == id && SavedAs(result.value.View())
      ensures alone && me in old(tasks) ==>
                RowWritten(old(store.Contents()), store.Contents(), store.requests[id],
                           store.requests[id].state == Returned)
      ensures me !in old(tasks) ==>
                result.error == if id in TablesAfter(reached).requests then DomainError else NotFound
    {
      result, reached := ReadAgain(me, id, actor, was);
      if result.Err? { return; }
      var failure := Settle(me, result.value, actor);
      if failure.Some? && raiseOnError { result := Err(RuntimeError(failure.value)); }
    }

    /** The request has come to an end: it will never be in `cleaning` again. */
    predicate Ended(id: string)
      reads this, store
    {
      id in store.requests && Terminal(store.requests[id].state)
    }

    /** A request that this task is returning is still in `cleaning`: nobody else writes it. */
    method ReadAgain(me: nat, id: string, actor: Actor, ghost was: Request)
      returns (result: Result<AccessRequest>, ghost reached: seq<Step>)
      requires Valid() && CompletesReturn(me, id, actor, was) && (me in tasks || alone || Ended(id))
      modifies this, store, runtime
      ensures Valid() && Awaited(old(steps), reached, me) && reached <= steps
      ensures Continues(old(steps), steps, me)
      ensures store.Contents() == TablesAfter(reached)
      ensures result.Ok? <==> me in old(tasks)
      ensures result.Ok? ==>
                && fresh(result.value) && result.value.id == id && result.value.View() == was && me in tasks
                && tasks[me] == RequestTask(actor, result.value.View(), NextClean(result.value.View(), 0))
      ensures result.Err? ==> me !in tasks && !result.error.RuntimeError?
      ensures alone ==> store.Contents() == old(store.Contents()) && (result.Err? ==> Now() == old(Now()))
      ensures result.Err? ==> result.error == if id in TablesAfter(reached).requests then DomainError else NotFound
    {
      ghost var before, ended := steps, Ended(id);
      Others(me);
      reached := steps;
      if me in tasks { ReachedOwner(start, steps, me); }
      if ended { EndedSince(start, before, steps, id); }
      result := ReadAgainStep(me, id, actor, was);
    }

    /** return_lease: both halves. It raises without touching the request, or takes it over and ends it. */
    method ReturnLease(me: nat, id: string, actor: Actor, expected: Option<int>)
      returns (result: Result<AccessRequest>, ghost at: Moments)
      requires Valid() && me !in tasks
      modifies this, store, runtime
      ensures Valid() && Traced(old(steps), at, me, id, actor, expected) && me !in tasks
      ensures result.Ok? || result.error.RuntimeError? <==> Lands(at, id, actor, expected)
      ensures result.Ok? || result.error.RuntimeError? ==>
                id in store.requests && SameLease(TablesAfter(at.seen).requests[id], store.requests[id])
      ensures result.Ok? ==> fresh(result.value) && result.value.id == id && result.value.state == Returned
                             && SavedAs(result.value.View()) && NodesFree(result.value.View())
      ensures result.Err? ==> if result.error.RuntimeError? then Quarantined(id) else TurnedDown(at, me)
      ensures alone ==> TablesAfter(at.seen) == TablesAfter(at.checked) == old(store.Contents())
                        && TablesAfter(at.reached) == old(store.Contents())
      ensures alone ==> (result.Err? && !result.error.RuntimeError? <==> !old(MayBeginReturn(id, actor, expected)))
      ensures alone && old(MayBeginReturn(id, actor, expected)) ==>
                RowWritten(old(store.Contents()), store.Contents(), store.requests[id], result.Ok?)
      ensures result.Err? && !result.error.RuntimeError? ==>
                result.error == ReturnError(TablesAfter(at.seen), TablesAfter(at.checked), TablesAfter(at.reached), dcn,
                                            id, actor, expected)
    {
      result, at := BeginReturn(me, id, actor, expected);
      if result.Err? { return; }
      ghost var cleaning, middle, begun := result.value.View(), store.Contents(), steps;
      ghost var reached;
      result, reached := CompleteReturn(me, id, actor, true, cleaning);
      Earlier(begun, reached, steps);
      Earlier(at.reached, begun, steps);
      if alone {
        RowsWritten(old(store.Contents()), middle, store.Contents(), cleaning, store.requests[id], result.Ok?);
      }
    }

    // ---- expiry ----

    /** expire_leases: an administrator returns every lease that is due, and stops at the first that fails.
        `listed` is the moment of the listing, `due` its due leases, `done` what was returned of them; `turned` is the
        moment when the call turns to the return that fails, and `at` has the moments of that. It begins nothing but
        these returns, in this order. */
    method ExpireLeases(me: nat, actor: Actor, now: int)
      returns (result: Result<seq<string>>, ghost listed: seq<Step>, ghost due: seq<string>, ghost done: seq<string>,
               ghost turned: seq<Step>, ghost at: Moments)
      requires Valid() && me !in tasks
      modifies this, store, runtime
      ensures Valid() && Awaited(old(steps), listed, me) && listed <= turned <= steps && me !in tasks
      ensures !(actor.projectId == dcn && "baremetal_admin" in actor.roles) ==>
                result == Err(DomainError) && Now() == old(Now()) && steps == old(steps)
      ensures actor.projectId == dcn && "baremetal_admin" in actor.roles ==>
                forall id :: id in due <==>
                  && id in TablesAfter(listed).requests
                  && TablesAfter(listed).requests[id].state == Leased
                  && TablesAfter(listed).requests[id].requestedUntil <= now
      ensures Order.Ascending(due) && done <= due
      ensures forall id | id in done :: id in store.requests && store.requests[id].state == Returned
      ensures Begun(turned, me) == Begun(listed, me) + Returns(me, actor, done)
      ensures result.Ok? ==> result.value == done == due && turned == steps
      ensures actor.projectId == dcn && "baremetal_admin" in actor.roles && result.Err? ==>
                |done| < |due| && Failed(turned, at, me, due[|done|], actor, result.error)
      ensures alone ==> listed == old(steps)
      ensures alone && result.Ok? ==> AllReturned(old(store.Contents()), store.Contents(), due)
      ensures alone && actor.projectId == dcn && "baremetal_admin" in actor.roles && result.Err? ==>
                StoppedAt(old(store.Contents()), store.Contents(), done, due[|done|])
    {
      listed, due, done, turned, at := steps, [], [], steps, Moments([], [], []);
      if !actor.IsAdmin(dcn) { return Err(DomainError), listed, due, done, turned, at; }
      Others(me);
      listed := steps;
      var rows := store.ListAll();
      var expired := DueIds(rows, now);
      ghost var before := store.Contents();
      DueAmongIsDue(before, rows, now);
      due := expired;
      result, done, turned, at := ReturnAll(me, actor, expired, before, now);
    }

    /** The return of `id` that begins at `turned` has failed: it did not take the request over, and wrote nothing, or
        the request is in `error` with its nodes reserved. */
    ghost predicate Failed(turned: seq<Step>, at: Moments, me: nat, id: string, actor: Actor, error: Error)
      reads this, store, runtime
    {
      && Traced(turned, at, me, id, actor, None)
      && (error.RuntimeError? <==> Lands(at, id, actor, None))
      && (!error.RuntimeError? ==>
            error == ReturnError(TablesAfter(at.seen), TablesAfter(at.checked), TablesAfter(at.reached), dcn, id, actor,
                                 None))
      && if error.RuntimeError? then Quarantined(id) else TurnedDown(at, me)
    }

    /** The loop of expire_leases, over the leases that were due. */
    method ReturnAll(me: nat, actor: Actor, expired: seq<string>, ghost before: Db, ghost now: int)
      returns (result: Result<seq<string>>, ghost done: seq<string>, ghost turned: seq<Step>, ghost at: Moments)
      requires Valid() && me !in tasks && actor.IsAdmin(dcn) && store.Contents() == before
      requires Order.Ascending(expired) && forall id | id in expired :: Due(before, id, now)
      modifies this, store, runtime
      ensures Valid() && old(steps) <= turned <= steps && me !in tasks
      ensures done <= expired && forall id | id in done :: id in store.requests && store.requests[id].state == Returned
      ensures Begun(turned, me) == Begun(old(steps), me) + Returns(me, actor, done)
      ensures if result.Ok? then result.value == done == expired && turned == steps
              else |done| < |expired| && Failed(turned, at, me, expired[|done|], actor, result.error)
      ensures alone ==> if result.Ok? then AllReturned(before, store.Contents(), expired)
                        else StoppedAt(before, store.Contents(), done, expired[|done|])
    {
      var completed := [];
      at := Moments([], [], []);
      while |completed| < |expired|
        invariant Valid() && old(steps) <= steps && me !in tasks
        invariant completed <= expired
        invariant Begun(steps, me) == Begun(old(steps), me) + Returns(me, actor, completed)
        invariant forall id | id in completed :: id in store.requests && store.requests[id].state == Returned
        invariant alone ==> AllReturned(before, store.Contents(), completed)
      {
        var id := expired[|completed|];
        NotYetDone(expired, completed);
        turned := steps;
        var error;
        error, at := ReturnOne(me, actor, id, before, completed);
        if error.Some? { return Err(error.value), completed, turned, at; }
        Earlier(old(steps), turned, steps);
        ReturnsNext(me, actor, completed, id);
        completed := completed + [id];
      }
      return Ok(completed), completed, steps, at;
    }

    /** One round of the expiry loop. */
    method ReturnOne(me: nat, actor: Actor, id: string, ghost before: Db, ghost done: seq<string>)
      returns (error: Option<Error>, ghost at: Moments)
      requires Valid() && me !in tasks && actor.IsAdmin(dcn)
      requires id !in done && id in before.requests && before.requests[id].state.Leased?
      requires forall i | i in done :: i in store.requests && store.requests[i].state == Returned
      requires alone ==> AllReturned(before, store.Contents(), done)
      modifies this, store, runtime
      ensures Valid() && old(steps) <= steps && me !in tasks
      ensures forall i | i in done :: i in store.requests && store.requests[i].state == Returned
      ensures if error.None? then
                && id in store.requests && store.requests[id].state == Returned
                && Begun(steps, me) == Begun(old(steps), me) + [Step.BeginReturn(me, id, actor, None)]
              else
                Failed(old(steps), at, me, id, actor, error.value)
      ensures alone ==> if error.None? then AllReturned(before, store.Contents(), done + [id])
                        else StoppedAt(before, store.Contents(), done, id)
    {
      ghost var earlier, middle := steps, store.Contents();
      var result;
      result, at := ReturnLease(me, id, actor, None);
      error := if result.Ok? then None else Some(result.error);
      StillReturned(start, earlier, steps, done);
      if alone { OneRound(before, middle, store.Contents(), done, id, actor, dcn, error.None?); }
    }

    // ---- node operations ----

    /** Read the request and `_require_lessee`. */
    method ReadForQueueStep(me: nat, id: string, actor: Actor, node: string, version: int, command: Command,
                            operationId: string, key: Option<string>) returns (result: Result<AccessRequest>)
      requires Valid() && me !in tasks
      modifies this
      ensures Valid()
      ensures Begun(steps, me) == Begun(old(steps), me) +
              if result.Err? then []
              else [BeginQueue(me, id, actor, version, node, command, operationId, key)]
      ensures steps == if result.Err? then old(steps)
                       else old(steps) + [BeginQueue(me, id, actor, version, node, command, operationId, key)]
      ensures result.Ok? <==> id in store.requests && MayOperate(store.requests[id], actor, node, version)
      ensures result.Ok? ==>
                fresh(result.value) && result.value.View() == store.requests[id]
                && tasks == old(tasks)[me := RequestTask(actor, store.requests[id],
                     ToInsert(NewOperation(store.requests[id], actor, node, command, operationId), key))]
      ensures result.Err? ==> me !in tasks
      ensures result.Err? ==>
                result.error == if id !in store.requests then NotFound
                                else if store.requests[id].version != version then VersionConflict else ValueError
    {
      result := store.Get(id);
      if result.Err? { return; }
      ReachedRow(start, steps, id);
      var item := result.value;
      if item.version != version { return Err(VersionConflict); }
      if actor.projectId != item.projectId { return Err(ValueError); }
      if !actor.CanOperate() { return Err(ValueError); }
      if item.state != Leased || node !in item.nodes { return Err(ValueError); }
      ghost var before := Now();
      tasks := tasks[me := RequestTask(actor, item.View(),
                 ToInsert(NewOperation(item.View(), actor, node, command, operationId), key))];
      Took(me, BeginQueue(me, id, actor, version, node, command, operationId, key), before);
    }

    /** create_operation_idempotent; an earlier operation under the key ends the call. */
    method InsertStep(me: nat, item: AccessRequest, actor: Actor, op: Operation, key: Option<string>)
      returns (result: Result<Operation>)
      requires Valid() && me in tasks && tasks[me] == RequestTask(actor, item.View(), ToInsert(op, key))
      modifies this, store
      ensures Valid() && steps == old(steps) + [Continue(me, Nothing)]
      ensures Continues(old(steps), steps, me)
      ensures store.Contents() == AfterSubmission(old(store.Contents()), op, key)
      ensures result == SubmissionAnswer(old(store.Contents()), op, key)
      ensures result.Ok? ==> result.value.id in store.operations && store.operations[result.value.id] == result.value
                             && SameSubmission(result.value, op) && result.value.projectId == op.projectId
      ensures if result.Ok? && result.value.id == op.id
              then me in tasks && tasks[me] == RequestTask(actor, item.View(), ToRecord(op)) else me !in tasks
    {
      ghost var before := Now();
      if Truthy(key) && KeyOf(op, key.value) in store.operationKeys {
        ReachedOperationKey(start, steps, KeyOf(op, key.value));
      }
      InsertIsStep(before, me, actor, item.View(), op, key);
      result := store.CreateOperationIdempotent(op, key);
      if result.Ok? && result.value.id == op.id {
        tasks := tasks[me := RequestTask(actor, item.View(), ToRecord(op))];
      } else {
        tasks := tasks - {me};
      }
      Took(me, Continue(me, Nothing), before);
    }

    method RecordStep(me: nat, item: AccessRequest, actor: Actor, op: Operation) returns (error: Option<Error>)
      requires Valid() && me in tasks && tasks[me] == RequestTask(actor, item.View(), ToRecord(op))
      modifies this, store
      ensures Valid() && Continues(old(steps), steps, me) && me !in tasks
      ensures error.None? <==> AtVersion(old(store.Contents()), item.id, item.version)
      ensures store.Contents() == if error.Some? then old(store.Contents())
                                  else Record(old(store.Contents()), item.id, actor.userId, actor.projectId,
                                              OperationQueued(op.command.Kind(), op.node))
      ensures error.Some? ==> error == Some(StaleError(old(store.Contents()), item.id))
    {
      ghost var before := Now();
      error := store.RecordAction(item, actor.userId, actor.projectId, OperationQueued(op.command.Kind(), op.node));
      tasks := tasks - {me};
      Took(me, Continue(me, Nothing), before);
    }

    /** The request is there, and the actor may operate the node. */
    predicate MayQueue(db: Db, id: string, actor: Actor, node: string, version: int) {
      id in db.requests && MayOperate(db.requests[id], actor, node, version)
    }

    /** The await and the read of a queueing. */
    method ReadForQueue(me: nat, id: string, actor: Actor, node: string, version: int, command: Command,
                        operationId: string, key: Option<string>)
      returns (result: Result<AccessRequest>, ghost seen: seq<Step>)
      requires Valid() && me !in tasks
      modifies this, store, runtime
      ensures Valid() && Awaited(old(steps), seen, me) && store.Contents() == TablesAfter(seen)
      ensures Consistent(TablesAfter(seen))
      ensures Begun(steps, me) == Begun(old(steps), me)
                                  + if result.Err? then []
                                    else [BeginQueue(me, id, actor, version, node, command, operationId, key)]
      ensures steps == if result.Err? then seen
                       else seen + [BeginQueue(me, id, actor, version, node, command, operationId, key)]
      ensures result.Ok? <==> MayQueue(TablesAfter(seen), id, actor, node, version)
      ensures result.Ok? ==>
                fresh(result.value) && result.value.id == id && result.value.View() == TablesAfter(seen).requests[id]
                && me in tasks && tasks[me] == RequestTask(actor, result.value.View(),
                     ToInsert(NewOperation(result.value.View(), actor, node, command, operationId), key))
      ensures result.Err? ==> me !in tasks
      ensures alone ==> seen == old(steps) && store.Contents() == old(store.Contents())
      ensures result.Err? ==>
                result.error == if id !in TablesAfter(seen).requests then NotFound
                                else if TablesAfter(seen).requests[id].version != version then VersionConflict
                                else ValueError
    {
      seen := Await(me);
      result := ReadForQueueStep(me, id, actor, node, version, command, operationId, key);
      if result.Ok? { ReachedRow(start, seen, id); }
    }

    /** queue_deploy and queue_power: `operationId` is the fresh uuid. `seen` and `reached` are the moments of the read
        and of the insertion, or of the exception before it. `inserted` tells whether the call has put its own operation
        into the table; then it raises exactly when the lease is gone, and leaves the operation there. */
    method QueueOperation(me: nat, id: string, actor: Actor, node: string, version: int, command: Command,
                          operationId: string, key: Option<string>)
      returns (result: Result<Operation>, ghost inserted: bool, ghost seen: seq<Step>, ghost reached: seq<Step>)
      requires Valid() && me !in tasks
      modifies this, store, runtime
      ensures Valid() && Awaited(old(steps), seen, me) && seen <= reached <= steps && me !in tasks
      ensures Consistent(TablesAfter(reached))
      ensures var begin := BeginQueue(me, id, actor, version, node, command, operationId, key);
              if MayQueue(TablesAfter(seen), id, actor, node, version) then
                && Begun(steps, me) == Begun(old(steps), me) + [begin] && Awaited(seen + [begin], reached, me)
                && Answered(TablesAfter(reached),
                            NewOperation(TablesAfter(seen).requests[id], actor, node, command, operationId), key,
                            result, inserted)
              else
                result.Err? && !inserted && steps == reached == seen
      ensures result.Ok? ==> result.value.requestId == id && result.value.node == node
                             && result.value.command == command
                             && result.value.projectId == actor.projectId
                             && ("baremetal_operator" in actor.roles || "baremetal_admin" in actor.roles
                                 || "admin" in actor.roles)
                             && Held(result.value)
      ensures inserted ==> operationId in store.operations && store.operations[operationId].requestId == id
                           && store.operations[operationId].node == node
                           && store.operations[operationId].command == command
      ensures inserted ==> id in store.requests && (result.Err? <==> !store.requests[id].state.Leased?)
      ensures !inserted ==> store.Contents() == TablesAfter(reached)
      ensures alone ==> seen == old(steps)
      ensures alone && operationId !in old(store.operations) ==>
                if MayQueue(old(store.Contents()), id, actor, node, version)
                then Enqueued(old(store.Contents()), store.Contents(), actor,
                              NewOperation(old(store.requests)[id], actor, node, command, operationId), key, result)
                else store.Contents() == old(store.Contents()) && result.Err?
      ensures var db := TablesAfter(seen);
              !MayQueue(db, id, actor, node, version) ==>
                result == Err(if id !in db.requests then NotFound
                              else if db.requests[id].version != version then VersionConflict else ValueError)
      ensures inserted && result.Err? ==> result == Err(VersionConflict)
    {
      var read;
      read, seen := ReadForQueue(me, id, actor, node, version, command, operationId, key);
      inserted, reached := false, seen;
      if read.Err? { return Err(read.error), inserted, seen, reached; }
      ghost var begun := steps;
      QueueingExactly(read.value.View(), actor, node, version, command, operationId);
      var op := NewOperation(read.value.View(), actor, node, command, operationId);
      result, inserted, reached := SubmitOperation(me, read.value, actor, op, key);
      Earlier(seen, begun, reached);
    }

    /** How a submission ends that finds these tables: with the store's answer, unless it has inserted its own
        operation and then fails to record it. */
    ghost predicate Answered(reached: Db, op: Operation, key: Option<string>, result: Result<Operation>, inserted: bool)
      requires Consistent(reached)
    {
      var answer := SubmissionAnswer(reached, op, key);
      && (inserted <==> answer.Ok? && answer.value.id == op.id)
      && (result == answer || (inserted && result.Err?))
      && (!inserted ==> AfterSubmission(reached, op, key) == reached)
    }

    /** The operation is in the table, however far it has been processed. */
    ghost predicate Held(op: Operation)
      reads this, store, runtime
    {
      op.id in store.operations && SameOperation(op, store.operations[op.id])
    }

    /** `_queue_operation` */
    method SubmitOperation(me: nat, item: AccessRequest, actor: Actor, op: Operation, key: Option<string>)
      returns (result: Result<Operation>, ghost inserted: bool, ghost reached: seq<Step>)
      requires Valid() && me in tasks && tasks[me] == RequestTask(actor, item.View(), ToInsert(op, key))
      requires op.requestId == item.id
      modifies this, store, runtime
      ensures Valid() && Awaited(old(steps), reached, me) && reached <= steps && me !in tasks
      ensures Continues(old(steps), steps, me)
      ensures Consistent(TablesAfter(reached)) && Answered(TablesAfter(reached), op, key, result, inserted)
      ensures result.Ok? ==> SameSubmission(result.value, op) && result.value.projectId == op.projectId
                             && Held(result.value)
      ensures inserted ==> op.id in store.operations && SameSubmission(store.operations[op.id], op)
                           && item.id in store.requests && (result.Err? <==> !store.requests[item.id].state.Leased?)
      ensures !inserted ==> store.Contents() == TablesAfter(reached)
      ensures alone ==> reached == old(steps)
      ensures alone && old(SavedAs(item.View())) && op.id !in old(store.operations) ==>
                Enqueued(old(store.Contents()), store.Contents(), actor, op, key, result)
      ensures inserted && result.Err? ==> result == Err(VersionConflict)
    {
      reached := Await(me);
      result := InsertStep(me, item, actor, op, key);
      inserted := result.Ok? && result.value.id == op.id;
      if result.Ok? && result.value.id == op.id {
        var error := RecordSubmission(me, item, actor, op, result.value);
        if error.Some? { return Err(error.value), inserted, reached; }
      }
    }

    /** The event of a submission, after the row. */
    method RecordSubmission(me: nat, item: AccessRequest, actor: Actor, op: Operation, ghost row: Operation)
      returns (error: Option<Error>)
      requires Valid() && me in tasks && tasks[me] == RequestTask(actor, item.View(), ToRecord(op))
      requires row.id in store.operations && store.operations[row.id] == row
      modifies this, store, runtime
      ensures Valid() && Continues(old(steps), steps, me) && me !in tasks && Held(row)
      ensures item.id in store.requests && (error.Some? <==> !store.requests[item.id].state.Leased?)
      ensures alone ==> (error.None? <==> AtVersion(old(store.Contents()), item.id, item.version))
      ensures alone && error.None? ==>
                store.Contents() == Record(old(store.Contents()), item.id, actor.userId, actor.projectId,
                                           OperationQueued(op.command.Kind(), op.node))
      ensures error.Some? ==> error == Some(VersionConflict)
    {
      ghost var before := steps;
      Others(me);
      SubmittedSince(start, before, steps, row.id);
      ReachedRecord(start, steps, me);
      error := RecordStep(me, item, actor, op);
    }

    /** start_operation: only a queued operation starts. */
    method StartStep(me: nat, id: string) returns (result: Result<Operation>)
      requires Valid() && me !in tasks
      modifies this, store
      ensures Valid() && steps == if result.Ok? then old(steps) + [BeginProcess(me, id)] else old(steps)
      ensures Begun(steps, me) == Begun(old(steps), me) + if result.Ok? then [BeginProcess(me, id)] else []
      ensures result.Ok? <==> InOperationState(old(store.Contents()), id, Queued)
      ensures result.Ok? ==> result.value.id == id && tasks == old(tasks)[me := RunTask(result.value)]
                             && store.Contents() == Start(old(store.Contents()), id)
      ensures result.Err? ==> result.error == VersionConflict && Now() == old(Now())
    {
      ghost var before := Now();
      result := store.StartOperation(id);
      if result.Ok? {
        StartIsStep(before, me, id);
        tasks := tasks[me := RunTask(result.value)];
        Took(me, BeginProcess(me, id), before);
      }
    }

    /** The runtime call of an operation. */
    method RunCommandStep(me: nat, op: Operation) returns (error: Option<string>)
      requires Valid() && me in tasks && tasks[me] == RunTask(op)
      modifies this, runtime
      ensures Valid() && Continues(old(steps), steps, me)
      ensures tasks == old(tasks)[me := FinishTask(op, error)]
      ensures issued == old(issued) + (if op.command.OtherCommand? then multiset{} else multiset{op.id})
      ensures op.command.OtherCommand? ==> runtime.fleet == old(runtime.fleet) && error.Some? && error.value != ""
      ensures !LeaseFits(old(runtime.fleet), op, dcn) ==>
                runtime.fleet == old(runtime.fleet) && error.Some? && error.value != ""
    {
      ghost var before := Now();
      var reply: Reply := *;
      match op.command {
        case Deploy(_, _) => error, reply := runtime.Deploy(op.node, op.projectId, dcn);
        case Power(target) => error, reply := runtime.SetPower(op.node, op.projectId, target, dcn);
        case OtherCommand(_, _) => error := Some("unsupported queued operation");
      }
      if !LeaseFits(before.fleet, op, dcn) { RefusedWithoutLease(before.fleet, op, dcn, reply); }
      if !op.command.OtherCommand? { issued := issued + multiset{op.id}; }
      RunIsStep(before, me, op, reply);
      tasks := tasks[me := FinishTask(op, error)];
      Took(me, Continue(me, Answer(reply)), before);
    }

    /** finish_operation: the operation is still running, so this never fails. */
    method FinishStep(me: nat, op: Operation, error: Option<string>)
      requires Valid() && me in tasks && tasks[me] == FinishTask(op, error)
      modifies this, store
      ensures Valid() && Continues(old(steps), steps, me) && me !in tasks
      ensures InOperationState(old(store.Contents()), op.id, Running)
      ensures store.Contents() == Finish(old(store.Contents()), op.id, error)
      ensures old(store.operations[op.id]) == op
    {
      ReachedOperation(start, steps, me);
      ghost var before := Now();
      var finished := store.FinishOperation(op.id, error);
      tasks := tasks - {me};
      Took(me, Continue(me, Nothing), before);
    }

    /** process_operation: at most one runtime call, then the outcome goes into the row. An exception without
        text is recorded as a success. `reached` is the moment of the start: the call goes on exactly when the operation
        is queued then. `called` is the moment of the runtime call: without the lease the operation fails. */
    method ProcessOperation(me: nat, id: string)
      returns (result: Result<Operation>, ghost reached: seq<Step>, ghost called: seq<Step>)
      requires Valid() && me !in tasks
      modifies this, store, runtime
      ensures Valid() && Awaited(old(steps), reached, me) && reached <= steps && me !in tasks
      ensures Begun(steps, me) == Begun(old(steps), me) +
              if InOperationState(TablesAfter(reached), id, Queued) then [BeginProcess(me, id)] else []
      ensures result.Err? && result.error.VersionConflict? <==>
                !(id in TablesAfter(reached).operations && TablesAfter(reached).operations[id].state == Queued)
      ensures result.Err? && result.error.VersionConflict? ==> steps == reached
      ensures !(result.Err? && result.error.VersionConflict?) ==>
                && reached + [BeginProcess(me, id)] <= steps
                && id in store.operations && !store.operations[id].Active()
                && (store.operations[id].state.Succeeded? <==> result.Ok? || result.error == RuntimeError(""))
                && (result.Ok? ==> result.value == store.operations[id])
      ensures alone ==> reached == old(steps)
      ensures !(result.Err? && result.error.VersionConflict?) ==>
                && reached <= called <= steps && Awaited(reached + [BeginProcess(me, id)], called, me)
                && (!LeaseFits(Run(start, called).fleet, store.operations[id], dcn) ==>
                      store.operations[id].state.Failed?)
    {
      result, reached := StartProcessing(me, id);
      called := reached;
      if result.Err? { return; }
      ghost var started := steps;
      result, called := CarryOut(me, result.value);
      Earlier(reached, started, called);
    }

    /** The await and the start of an operation. */
    method StartProcessing(me: nat, id: string) returns (result: Result<Operation>, ghost reached: seq<Step>)
      requires Valid() && me !in tasks
      modifies this, store, runtime
      ensures Valid() && Awaited(old(steps), reached, me)
      ensures steps == if result.Ok? then reached + [BeginProcess(me, id)] else reached
      ensures Begun(steps, me) == Begun(old(steps), me) + if result.Ok? then [BeginProcess(me, id)] else []
      ensures result.Ok? <==> InOperationState(TablesAfter(reached), id, Queued)
      ensures result.Ok? ==> result.value.id == id && me in tasks && tasks[me] == RunTask(result.value)
      ensures result.Err? ==> result.error == VersionConflict && me !in tasks
      ensures alone ==> reached == old(steps)
    {
      reached := Await(me);
      result := StartStep(me, id);
    }

    /** The runtime call and its record, once the operation is running. */
    method CarryOut(me: nat, op: Operation) returns (result: Result<Operation>, ghost called: seq<Step>)
      requires Valid() && me in tasks && tasks[me] == RunTask(op)
      modifies this, store, runtime
      ensures Valid() && Continues(old(steps), steps, me) && me !in tasks
      ensures op.id in store.operations && !store.operations[op.id].Active()
      ensures store.operations[op.id].state.Succeeded? <==> result.Ok? || result.error == RuntimeError("")
      ensures if result.Ok? then result.value == store.operations[op.id] else !result.error.VersionConflict?
      ensures Awaited(old(steps), called, me) && called <= steps && SameOperation(op, store.operations[op.id])
      ensures !LeaseFits(Run(start, called).fleet, op, dcn) ==> store.operations[op.id].state.Failed?
    {
      called := Await(me);
      var error := RunCommandStep(me, op);
      Others(me);
      FinishStep(me, op, error);
      if error.Some? {
        return Err(if op.command.OtherCommand? then ValueError else RuntimeError(error.value)), called;
      }
      return Ok(store.operations[op.id]), called;
    }
  }
}
