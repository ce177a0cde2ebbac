/**
 The promises of the lease service, for every run: any number of interleaved calls, runtime calls that
 fail before or after taking effect, calls that die at any step, restarts, and nodes that change by themselves.
 `w` is a world a run from an empty store ends in.
 */
module Theorems {
  import opened Base
  import opened Domain
  import opened Tables
  import opened Ironic
  import opened Ledger
  import opened Protocol
  import opened Invariant
  import opened Preservation
  import opened Steps
  import opened Runs

  // ---- exclusivity ----

  /** A lessee in Ironic always goes with a reservation for a request of that project, past its approval. */
  lemma LesseeHasReservation(start: World, steps: seq<Step>, n: string)
    requires Initial(start)
    requires var f := Run(start, steps).fleet; n in f.nodes && f.nodes[n].lessee.Some?
    ensures var w := Run(start, steps);
            && n in w.db.reservations
            && var id := w.db.reservations[n].requestId;
            && id in w.db.requests && n in w.db.requests[id].nodes
            && w.db.requests[id].projectId == w.fleet.nodes[n].lessee.value
            && w.db.requests[id].state in {Allocating, Leased, ReturnRequested, Cleaning, Errored}
  {
    ReachableInv(start, steps);
    var w := Run(start, steps);
    assert Held(w.db, n) && w.db.reservations[n].projectId == w.fleet.nodes[n].lessee.value;
  }

  /** A leased request has every one of its nodes: reserved for it, and with its project as lessee. */
  lemma LeasedMeansAssigned(start: World, steps: seq<Step>, id: string)
    requires Initial(start)
    requires var db := Run(start, steps).db; id in db.requests && db.requests[id].state.Leased?
    ensures var w := Run(start, steps);
            var r := w.db.requests[id];
            && |r.nodes| == r.quantity && Distinct(r.nodes)
            && forall n | n in r.nodes ::
                 && n in w.db.reservations && w.db.reservations[n].requestId == id
                 && n in w.fleet.nodes && w.fleet.nodes[n].lessee == Some(r.projectId)
  {
    ReachableInv(start, steps);
  }

  /** No reuse without cleaning: a node nobody holds has no lessee and was fully cleaned since its last use;
      so are the nodes of a request that is only approved. */
  lemma FreeNodesAreClean(start: World, steps: seq<Step>, n: string)
    requires Initial(start)
    requires var db := Run(start, steps).db;
             || n !in db.reservations
             || exists id :: id in db.requests && db.requests[id].state.Approved? && n in db.requests[id].nodes
    ensures var w := Run(start, steps);
            n !in w.fleet.dirty && (n in w.fleet.nodes ==> w.fleet.nodes[n].lessee.None?)
  {
    ReachableInv(start, steps);
    var w := Run(start, steps);
    if n in w.db.reservations {
      var id :| id in w.db.requests && w.db.requests[id].state.Approved? && n in w.db.requests[id].nodes;
      assert ReservedFor(w.db, n, id);
    }
    assert !Held(w.db, n);
  }

  /** What `view` puts into the nodes field. */
  function Visible(r: Request, actor: Actor, dcn: string): seq<string> {
    if actor.IsAdmin(dcn)
       || (actor.projectId == r.projectId
           && (r.state.Leased? || r.state.ReturnRequested? || r.state.Cleaning? || r.state.Errored?))
    then r.nodes else []
  }

  /** An administrator of the operator sees the nodes of every request; the project of a request sees them while it is
      leased, in return, in cleaning or in error, and nobody else sees any. */
  lemma VisibleExactly(r: Request, actor: Actor, dcn: string)
    ensures Visible(r, actor, dcn)
            == if (actor.projectId == dcn && "baremetal_admin" in actor.roles)
                  || (actor.projectId == r.projectId && r.state in {Leased, ReturnRequested, Cleaning, Errored})
               then r.nodes else []
  {
  }

  /** The project of a leased request sees as many nodes as it asked for, and it is the lessee of each. */
  lemma LesseeSeesItsNodes(start: World, steps: seq<Step>, id: string, actor: Actor)
    requires Initial(start)
    requires var db := Run(start, steps).db;
             id in db.requests && db.requests[id].state == Leased && actor.projectId == db.requests[id].projectId
    ensures var w := Run(start, steps);
            var seen := Visible(w.db.requests[id], actor, w.dcn);
            && |seen| == w.db.requests[id].quantity && Distinct(seen)
            && forall n | n in seen :: n in w.fleet.nodes && w.fleet.nodes[n].lessee == Some(actor.projectId)
  {
    LeasedMeansAssigned(start, steps, id);
    VisibleExactly(Run(start, steps).db.requests[id], actor, Run(start, steps).dcn);
  }

  /** Two requesters of different projects never see the same node in the same state of the store. */
  lemma ViewsAreDisjoint(start: World, steps: seq<Step>, a: Actor, b: Actor, i: string, j: string, n: string)
    requires Initial(start)
    requires var w := Run(start, steps);
             && !a.IsAdmin(w.dcn) && !b.IsAdmin(w.dcn)
             && i in w.db.requests && n in Visible(w.db.requests[i], a, w.dcn)
             && j in w.db.requests && n in Visible(w.db.requests[j], b, w.dcn)
    ensures var w := Run(start, steps);
            && n in w.db.reservations && w.db.reservations[n].projectId == a.projectId
            && a.projectId == b.projectId && i == j
  {
    ReachableInv(start, steps);
    var w := Run(start, steps);
    assert ReservedFor(w.db, n, i) && ReservedFor(w.db, n, j);
  }

  // ---- what the fleet theorems rest on ----

  /** A used node counts as clean again only by a completed cleaning of it, from active or available, that leaves it
      available without error. */
  lemma DirtGoesOnlyByCleaning(w: World, s: Step, n: string)
    requires n in w.fleet.dirty && n !in Apply(w, s).fleet.dirty
    ensures s.Continue? && s.input.Answer? && s.input.reply.Completed? && s.k in w.tasks
    ensures var t := w.tasks[s.k];
            && t.RequestTask? && t.place.ToClean? && t.place.cleaned < |t.item.nodes|
            && t.item.nodes[t.place.cleaned] == n
    ensures n in w.fleet.nodes && w.fleet.nodes[n].condition.provision in {Available, ProvisionState.Active}
    ensures var nodes := Apply(w, s).fleet.nodes;
            n in nodes && nodes[n].condition.provision == Available && nodes[n].condition.lastError in {None, Some("")}
  {
  }

  /** A node that gets a lessee counts as used, and so does one whose deployment has done anything. */
  lemma LesseeMakesDirty(w: World, s: Step, n: string)
    requires n in w.fleet.nodes && n in Apply(w, s).fleet.nodes
    requires Apply(w, s).fleet.nodes[n].lessee != w.fleet.nodes[n].lessee
    ensures Apply(w, s).fleet.nodes[n].lessee.Some? ==> n in Apply(w, s).fleet.dirty
    ensures s.Continue? && s.k in w.tasks && w.tasks[s.k].RequestTask? && n in w.tasks[s.k].item.nodes
  {
  }

  // ---- the reservation table ----

  ghost function HeldQuantities(requests: map<string, Request>): map<string, int> {
    map id | id in requests && Holding(requests[id].state) :: requests[id].quantity
  }

  /** The nodes that the table reserves for one of `ids`. */
  ghost function NodesReservedFor(db: Db, ids: set<string>): set<string> {
    set n | n in db.reservations && db.reservations[n].requestId in ids
  }

  lemma DistinctCount(s: seq<string>)
    requires Distinct(s)
    ensures |set x | x in s| == |s|
  {
    if s != [] {
      var init := s[..|s| - 1];
      DistinctCount(init);
      assert s == init + [s[|s| - 1]];
      assert (set x | x in s) == (set x | x in init) + {s[|s| - 1]};
    }
  }

  lemma OwnNodes(db: Db, id: string)
    requires Rows(db.requests) && Exact(db) && id in db.requests && Holding(db.requests[id].state)
    ensures |NodesReservedFor(db, {id})| == db.requests[id].quantity
  {
    var own := set n | n in db.requests[id].nodes;
    DistinctCount(db.requests[id].nodes);
    forall n | n in own ensures n in NodesReservedFor(db, {id}) { assert ReservedFor(db, n, id); }
    assert NodesReservedFor(db, {id}) == own;
  }

  lemma NodesReservedSplit(db: Db, ids: set<string>, id: string)
    requires id in ids
    ensures |NodesReservedFor(db, ids)| == |NodesReservedFor(db, ids - {id})| + |NodesReservedFor(db, {id})|
  {
    assert NodesReservedFor(db, ids) == NodesReservedFor(db, ids - {id}) + NodesReservedFor(db, {id});
    assert NodesReservedFor(db, ids - {id}) !! NodesReservedFor(db, {id});
  }

  lemma {:induction false} ReservationsAddUp(db: Db, ids: set<string>)
    requires Rows(db.requests) && Exact(db)
    requires forall id | id in ids :: id in db.requests && Holding(db.requests[id].state)
    ensures |NodesReservedFor(db, ids)| == Total(map id | id in ids :: db.requests[id].quantity)
    decreases |ids|
  {
    var m := map id | id in ids :: db.requests[id].quantity;
    if ids == {} {
      assert NodesReservedFor(db, ids) == {};
    } else {
      var id :| id in ids;
      ReservationsAddUp(db, ids - {id});
      TotalSplit(m, id);
      assert m - {id} == map i | i in ids - {id} :: db.requests[i].quantity;
      OwnNodes(db, id);
      NodesReservedSplit(db, ids, id);
    }
  }

  lemma ExactByRows(db: Db)
    requires Exact(db)
    ensures (forall n | n in db.reservations ::
                  var id := db.reservations[n].requestId;
                  && id in db.requests && n in db.requests[id].nodes
                  && db.reservations[n].projectId == db.requests[id].projectId
                  && db.requests[id].state in {Approved, Allocating, Leased, ReturnRequested, Cleaning, Errored})
            && (forall id, n | id in db.requests && n in db.requests[id].nodes ::
                  db.requests[id].state in {Approved, Allocating, Leased, ReturnRequested, Cleaning, Errored} ==>
                    n in db.reservations && db.reservations[n].requestId == id)
  {
    forall id, n | id in db.requests && n in db.requests[id].nodes && Holding(db.requests[id].state)
      ensures n in db.reservations && db.reservations[n].requestId == id
    {
      assert ReservedFor(db, n, id);
    }
  }

  /** The reservation table is exactly the disjoint union of the node lists of the holding requests,
      and has as many rows as they ask for nodes. */
  lemma ReservationsAreExact(start: World, steps: seq<Step>)
    requires Initial(start)
    ensures var db := Run(start, steps).db;
            && (forall n | n in db.reservations ::
                  var id := db.reservations[n].requestId;
                  && id in db.requests && n in db.requests[id].nodes
                  && db.reservations[n].projectId == db.requests[id].projectId
                  && db.requests[id].state in {Approved, Allocating, Leased, ReturnRequested, Cleaning, Errored})
            && (forall id, n | id in db.requests && n in db.requests[id].nodes ::
                  db.requests[id].state in {Approved, Allocating, Leased, ReturnRequested, Cleaning, Errored} ==>
                    n in db.reservations && db.reservations[n].requestId == id)
            && |db.reservations| == Total(HeldQuantities(db.requests))
            && forall i, j, n | i in db.requests && j in db.requests && i != j
                 && Holding(db.requests[i].state) && Holding(db.requests[j].state) && n in db.requests[i].nodes ::
                 n !in db.requests[j].nodes
  {
    ReachableInv(start, steps);
    var db := Run(start, steps).db;
    var ids := set id | id in db.requests && Holding(db.requests[id].state);
    ExactByRows(db);
    ReservationsAddUp(db, ids);
    assert NodesReservedFor(db, ids) == db.reservations.Keys;
    assert (map id | id in ids :: db.requests[id].quantity) == HeldQuantities(db.requests);
    forall i, j, n | i in db.requests && j in db.requests && i != j
      && Holding(db.requests[i].state) && Holding(db.requests[j].state) && n in db.requests[i].nodes
      ensures n !in db.requests[j].nodes
    {
      assert ReservedFor(db, n, i) && !ReservedFor(db, n, j);
    }
  }

  // ---- optimistic concurrency ----

  /** No lost update: a task whose copy has the version of the row has the row. */
  lemma NoLostUpdate(start: World, steps: seq<Step>, k: nat)
    requires Initial(start)
    requires var w := Run(start, steps); k in w.tasks && w.tasks[k].RequestTask?
    ensures var w := Run(start, steps);
            var item := w.tasks[k].item;
            && item.id in w.db.requests
            && SameContract(item, w.db.requests[item.id])
            && (item.version == w.db.requests[item.id].version ==> item == w.db.requests[item.id])
  {
    ReachableInv(start, steps);
    assert CopyFits(Run(start, steps).db.requests, Run(start, steps).tasks[k]);
  }

  lemma LawfulFootprint(db: Db, db': Db, dcn: string, id: string)
    requires Rows(db.requests) && Footprint(db, db') && Chained(db'.audit, dcn) && id in db.requests
    ensures id in db'.requests && OneTransition(db.requests[id], db'.requests[id])
  {
    if db'.audit != db.audit {
      var e := db'.audit[|db'.audit| - 1];
      assert Lawful(e, dcn);
    }
  }

  /** Whatever happens next, a row stays or takes one legal transition, and its contract never changes. */
  lemma StepsAreTransitions(w: World, s: Step, id: string)
    requires Inv(w) && id in w.db.requests
    ensures id in Apply(w, s).db.requests
    ensures OneTransition(w.db.requests[id], Apply(w, s).db.requests[id])
  {
    ApplyFootprint(w, s);
    ApplyKeepsInv(w, s);
    SameOperator(w, s);
    LawfulFootprint(w.db, Apply(w, s).db, w.dcn, id);
  }

  /** The row of a request over a run: its contract stays, its version never falls. */
  lemma {:induction false} RowsOnlyMoveForward(w: World, steps: seq<Step>, id: string)
    requires Inv(w) && id in w.db.requests
    ensures id in Run(w, steps).db.requests
    ensures var r, r' := w.db.requests[id], Run(w, steps).db.requests[id];
            SameContract(r, r') && r.version <= r'.version && (r.version == r'.version ==> r == r')
    decreases |steps|
  {
    if steps != [] {
      StepsAreTransitions(w, steps[0], id);
      ApplyKeepsInv(w, steps[0]);
      RowsOnlyMoveForward(Apply(w, steps[0]), steps[1..], id);
    }
  }

  predicate Terminal(s: RequestState) {
    s.Rejected? || s.Cancelled? || s.Returned? || s.Errored?
  }

  /** Nothing ever writes a request that was rejected, cancelled or returned, or that went to `error`. */
  lemma {:induction false} TerminalIsFinal(w: World, steps: seq<Step>, id: string)
    requires Inv(w) && id in w.db.requests && Terminal(w.db.requests[id].state)
    ensures id in Run(w, steps).db.requests && Run(w, steps).db.requests[id] == w.db.requests[id]
    decreases |steps|
  {
    if steps != [] {
      StepsAreTransitions(w, steps[0], id);
      ApplyKeepsInv(w, steps[0]);
      TerminalIsFinal(Apply(w, steps[0]), steps[1..], id);
    }
  }

  /** The task a step belongs to. */
  function TaskOf(s: Step): Option<nat> {
    match s
    case BeginApprove(k, _, _, _) => Some(k)
    case BeginReject(k, _, _, _, _) => Some(k)
    case BeginCancel(k, _, _, _) => Some(k)
    case BeginReturn(k, _, _, _) => Some(k)
    case BeginQueue(k, _, _, _, _, _, _, _) => Some(k)
    case BeginProcess(k, _) => Some(k)
    case Continue(k, _) => Some(k)
    case Abandon(k) => Some(k)
    case _ => None
  }

  /** Steps that are not task k's, and leave the process alive. */
  predicate ByOthers(steps: seq<Step>, k: nat) {
    forall s | s in steps :: TaskOf(s) != Some(k) && !s.Restart?
  }

  lemma AdvanceChangesItsTask(w: World, k: nat, actor: Actor, item: Request, place: Place, input: Input)
    ensures OthersKept(w.tasks, Advance(w, k, actor, item, place, input).tasks, k)
    ensures Advance(w, k, actor, item, place, input).dcn == w.dcn
  {
  }

  lemma OthersLeaveTask(w: World, s: Step, k: nat)
    requires TaskOf(s) != Some(k) && !s.Restart?
    ensures k in Apply(w, s).tasks <==> k in w.tasks
    ensures k in w.tasks ==> Apply(w, s).tasks[k] == w.tasks[k]
  {
    if s.Continue? && s.k in w.tasks && w.tasks[s.k].RequestTask? {
      var t := w.tasks[s.k];
      AdvanceChangesItsTask(w, s.k, t.actor, t.item, t.place, s.input);
    }
  }

  lemma SameOperator(w: World, s: Step)
    ensures Apply(w, s).dcn == w.dcn
  {
    if s.Continue? && s.k in w.tasks && w.tasks[s.k].RequestTask? {
      var t := w.tasks[s.k];
      AdvanceChangesItsTask(w, s.k, t.actor, t.item, t.place, s.input);
    }
  }

  lemma {:induction false} OthersLeaveTaskAlone(w: World, steps: seq<Step>, k: nat)
    requires ByOthers(steps, k)
    ensures Run(w, steps).dcn == w.dcn
    ensures k in Run(w, steps).tasks <==> k in w.tasks
    ensures k in w.tasks ==> Run(w, steps).tasks[k] == w.tasks[k]
    decreases |steps|
  {
    if steps != [] {
      assert steps[0] in steps;
      OthersLeaveTask(w, steps[0], k);
      SameOperator(w, steps[0]);
      OthersLeaveTaskAlone(Apply(w, steps[0]), steps[1..], k);
    }
  }

  /** Whether an owner's next step is a save, and the state it saves. */
  function SavesNext(t: Task): Option<RequestState>
    requires t.RequestTask?
  {
    match t.place
    case ToStartAllocation => Some(Allocating)
    case ToAssign(done) => if done == |t.item.nodes| then Some(Leased) else None
    case ToRecordAllocationFailure(_) => Some(Errored)
    case ToStartCleaning => Some(Cleaning)
    case ToClear(cleared) => if cleared == |t.item.nodes| then Some(Returned) else None
    case ToRecordCleaningFailure(_) => Some(Errored)
    case _ => None
  }

  lemma OwnerPlans(dcn: string, t: Task)
    requires t.RequestTask? && SavesNext(t).Some? && t.item.state == Carries(t.place).value
    ensures var plan := PlannedSave(dcn, t.actor, t.item, t.place);
            && plan.Some? && plan.value.made.Ok? && plan.value.made.value.id == t.item.id
            && plan.value.made.value.state == SavesNext(t).value && plan.value.made.value.version == t.item.version + 1
  {
  }

  lemma CurrentOwnerSaves(w: World, k: nat, input: Input)
    requires k in w.tasks && w.tasks[k].RequestTask? && SavesNext(w.tasks[k]).Some?
    requires AtVersion(w.db, w.tasks[k].item.id, w.tasks[k].item.version)
    requires w.tasks[k].item.state == Carries(w.tasks[k].place).value
    ensures var t := w.tasks[k];
            var requests := Advance(w, k, t.actor, t.item, t.place, input).db.requests;
            && t.item.id in requests
            && requests[t.item.id].state == SavesNext(t).value
            && requests[t.item.id].version == t.item.version + 1
  {
    OwnerPlans(w.dcn, w.tasks[k]);
  }

  /** An owner's save never meets a version conflict: it takes the row where it wants it. */
  lemma OwnerSavesSucceed(w: World, k: nat, input: Input)
    requires Inv(w) && k in w.tasks && w.tasks[k].RequestTask? && SavesNext(w.tasks[k]).Some?
    ensures var id := w.tasks[k].item.id;
            && id in Apply(w, Continue(k, input)).db.requests
            && Apply(w, Continue(k, input)).db.requests[id].state == SavesNext(w.tasks[k]).value
            && Apply(w, Continue(k, input)).db.requests[id].version == w.tasks[k].item.version + 1
  {
    CurrentCopy(w, k);
    CurrentOwnerSaves(w, k, input);
  }

  // ---- the trail ----

  /** The number of transitions the trail shows for a request. */
  function Transitions(audit: seq<AuditEvent>, id: string): nat {
    if audit == [] then 0
    else
      var e := audit[|audit| - 1];
      Transitions(audit[..|audit| - 1], id)
      + (if e.requestId == id && e.before.Some? && e.before.value != e.after then 1 else 0)
  }

  lemma {:induction false} VersionCountsTransitions(audit: seq<AuditEvent>, dcn: string, id: string)
    requires Chained(audit, dcn)
    ensures match Latest(audit, id)
            case Some(p) => p.version == Transitions(audit, id)
            case None => Transitions(audit, id) == 0
  {
    if audit != [] {
      var init := audit[..|audit| - 1];
      var e := audit[|audit| - 1];
      forall i | 0 <= i < |init|
        ensures init[i].before == Latest(init[..i], init[i].requestId) && Lawful(init[i], dcn)
      {
        assert audit[..i] == init[..i];
      }
      VersionCountsTransitions(init, dcn, id);
      assert e.before == Latest(init, e.requestId) && Lawful(e, dcn);
    }
  }

  /** The trail of every run is a chain of lawful events that replays to the current public state of each request;
      the version counts its transitions, and there are never more than six. */
  lemma TrailReplays(start: World, steps: seq<Step>, id: string)
    requires Initial(start)
    ensures var w := Run(start, steps);
            && Chained(w.db.audit, w.dcn)
            && Latest(w.db.audit, id)
               == (if id !in w.db.requests then None
                   else Some(PublicState(w.db.requests[id].state, w.db.requests[id].version,
                                         w.db.requests[id].nodes, w.db.requests[id].projectId)))
            && Transitions(w.db.audit, id) <= 6
            && (id in w.db.requests ==>
                  && w.db.requests[id].version == Transitions(w.db.audit, id)
                  && w.db.requests[id].version in match w.db.requests[id].state {
                       case Submitted => {0}
                       case Approved | Rejected | Cancelled => {1}
                       case Allocating => {2}
                       case Leased => {3}
                       case ReturnRequested => {4}
                       case Cleaning => {5}
                       case Returned => {6}
                       case Errored => {3, 6}
                       case Reviewing => {}
                     })
  {
    ReachableInv(start, steps);
    var w := Run(start, steps);
    VersionCountsTransitions(w.db.audit, w.dcn, id);
  }

  /** A chained trail names one project per request and starts each version once. */
  lemma {:induction false} TrailIsOneHistory(audit: seq<AuditEvent>, dcn: string, i: int)
    requires Chained(audit, dcn) && 0 <= i < |audit|
    ensures var last := Latest(audit, audit[i].requestId);
            && last.Some? && last.value.projectId == audit[i].after.projectId
            && audit[i].after.version <= last.value.version
    decreases |audit|
  {
    var init := audit[..|audit| - 1];
    var e := audit[|audit| - 1];
    assert e.before == Latest(init, e.requestId) && Lawful(e, dcn);
    if i < |init| {
      forall j | 0 <= j < |init|
        ensures init[j].before == Latest(init[..j], init[j].requestId) && Lawful(init[j], dcn)
      {
        assert audit[..j] == init[..j];
      }
      TrailIsOneHistory(init, dcn, i);
    }
  }

  /** Of all the calls that race to decide a request, at most one takes effect: the trail never shows
      two transitions of one request from the same version. */
  lemma OneDecision(start: World, steps: seq<Step>, i: int, j: int)
    requires Initial(start)
    requires var audit := Run(start, steps).db.audit;
             && 0 <= i < j < |audit| && audit[i].requestId == audit[j].requestId
             && audit[i].before.Some? && audit[j].before.Some?
             && audit[i].before.value != audit[i].after && audit[j].before.value != audit[j].after
    ensures var audit := Run(start, steps).db.audit;
            audit[i].before.value.version < audit[j].before.value.version
  {
    ReachableInv(start, steps);
    var w := Run(start, steps);
    var audit := w.db.audit;
    var prefix := audit[..j];
    forall m | 0 <= m < j
      ensures prefix[m].before == Latest(prefix[..m], prefix[m].requestId) && Lawful(prefix[m], w.dcn)
    {
      assert audit[..m] == prefix[..m];
    }
    TrailIsOneHistory(prefix, w.dcn, i);
    assert Lawful(audit[i], w.dcn) && prefix[i] == audit[i];
    assert audit[j].before == Latest(prefix, audit[j].requestId);
  }

  /** Decision authority: approvals and rejections carry the operator's project, cancellations the request's own,
      returns one of the two. */
  lemma DecisionsAreAuthorised(start: World, steps: seq<Step>, i: int)
    requires Initial(start)
    requires 0 <= i < |Run(start, steps).db.audit|
    ensures var w := Run(start, steps);
            var e := w.db.audit[i];
            && e.requestId in w.db.requests
            && var project := w.db.requests[e.requestId].projectId;
            && (e.action.Approve? || e.action.Reject? ==> e.actorProject == w.dcn)
            && (e.action.AllocationStarted? || e.action.AllocationCompleted? || e.action.AllocationFailed? ==>
                  e.actorProject == w.dcn)
            && (e.action.Created? || e.action.Cancel? || e.action.OperationQueued? ==> e.actorProject == project)
            && (e.action.AskedToReturn? || e.action.CleaningStarted?
                || e.action.CleaningCompleted? || e.action.CleaningFailed? ==>
                  e.actorProject == w.dcn || e.actorProject == project)
  {
    ReachableInv(start, steps);
    var w := Run(start, steps);
    TrailIsOneHistory(w.db.audit, w.dcn, i);
    assert Lawful(w.db.audit[i], w.dcn);
    assert Latest(w.db.audit, w.db.audit[i].requestId).Some?;
  }
}
