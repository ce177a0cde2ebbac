/** Every step of every task, and of the environment, keeps the invariant. */
module Preservation {
  import opened Base
  import opened Domain
  import opened Tables
  import opened Ironic
  import opened Ledger
  import opened Protocol
  import opened Invariant

  // ---- tasks begin, end and move on without touching the tables or the fleet ----

  /** All tasks but k are as they were. */
  ghost predicate OthersKept(tasks: map<nat, Task>, tasks': map<nat, Task>, k: nat) {
    forall l | l != k :: (l in tasks' <==> l in tasks) && (l in tasks ==> tasks'[l] == tasks[l])
  }

  /** Task k, if it is there, has a place it may take with tables and fleet as they are. */
  ghost predicate MayStand(w: World, w': World, k: nat) {
    k in w'.tasks ==>
      && w'.tasks[k].RequestTask?
      && CopyFits(w.db.requests, w'.tasks[k]) && Authorised(w'.tasks[k], w.dcn) && Progress(w.fleet, w'.tasks[k])
      && (Carries(w'.tasks[k].place).Some? ==> k in w.tasks && Owns(w.tasks[k], w'.tasks[k].item.id))
  }

  lemma MoveKeepsCopies(w: World, w': World, k: nat)
    requires Copies(w.db.requests, w.tasks) && OthersKept(w.tasks, w'.tasks, k) && MayStand(w, w', k)
    ensures Copies(w.db.requests, w'.tasks)
  {
    forall l, m, id | l in w'.tasks && m in w'.tasks && Owns(w'.tasks[l], id) && Owns(w'.tasks[m], id)
      ensures l == m
    {
      assert l in w.tasks && Owns(w.tasks[l], id);
      assert m in w.tasks && Owns(w.tasks[m], id);
    }
  }

  lemma AuthorisationKept(tasks: map<nat, Task>, tasks': map<nat, Task>, k: nat, dcn: string)
    requires AllAuthorised(tasks, dcn) && OthersKept(tasks, tasks', k)
    requires k in tasks' ==> Authorised(tasks'[k], dcn)
    ensures AllAuthorised(tasks', dcn)
  {
  }

  lemma MoveKeepsInv(w: World, w': World, k: nat)
    requires Inv(w) && w' == w.(tasks := w'.tasks)
    requires OthersKept(w.tasks, w'.tasks, k) && MayStand(w, w', k)
    ensures Inv(w')
  {
    MoveKeepsCopies(w, w', k);
    OperationsSurvive(w, w');
  }

  lemma EndKeepsInv(w: World, k: nat)
    requires Inv(w)
    ensures Inv(End(w, k))
  {
    MoveKeepsInv(w, End(w, k), k);
  }

  // ---- saves ----

  /** A row that no task carries, or that task k carries, may move on by one version. */
  lemma SaveKeepsCopies(requests: map<string, Request>, tasks: map<nat, Task>, k: nat, r: Request,
                        tasks': map<nat, Task>)
    requires Copies(requests, tasks) && k in tasks && tasks[k].RequestTask?
    requires r.id in requests && SameContract(requests[r.id], r) && tasks[k].item == requests[r.id] && WellFormed(r)
    requires r.version == requests[r.id].version + 1
    requires Owns(tasks[k], r.id) || forall l | l in tasks :: !Owns(tasks[l], r.id)
    requires OthersKept(tasks, tasks', k)
    requires k in tasks' ==> tasks'[k].RequestTask? && tasks'[k].item == r && Carries(tasks'[k].place) == Some(r.state)
    ensures Copies(requests[r.id := r], tasks')
  {
  }

  /** While the row of a request is in a state that no task carries, no task owns it. */
  lemma NobodyOwns(requests: map<string, Request>, tasks: map<nat, Task>, id: string)
    requires Copies(requests, tasks) && id in requests
    requires requests[id].state.Submitted? || requests[id].state.Leased?
    ensures forall l | l in tasks :: !Owns(tasks[l], id)
  {
    forall l | l in tasks
      ensures !Owns(tasks[l], id)
    {
      assert CopyFits(requests, tasks[l]);
    }
  }

  ghost predicate FleetAllows(f: Fleet, before: Request, after: Request, release: bool) {
    && (MayHaveLessee(before.state) && !release ==> MayHaveLessee(after.state))
    && (release ==> forall n | n in before.nodes :: Cleared(f, n))
    && (after.state.Leased? || after.state.ReturnRequested? ==>
          before.state.Leased? || forall n | n in before.nodes :: HasLessee(f, n, before.projectId))
  }

  lemma SaveKeepsFleet(db: Db, f: Fleet, r: Request, db': Db, release: bool)
    requires Exact(db) && LesseesHeld(db, f) && DirtyHeld(db, f) && LeasesAssigned(db, f)
    requires r.id in db.requests && SameContract(db.requests[r.id], r) && db.requests[r.id].nodes == r.nodes
    requires FleetAllows(f, db.requests[r.id], r, release)
    requires db'.requests == db.requests[r.id := r]
    requires db'.reservations == if release then Released(db.reservations, r.id) else db.reservations
    ensures LesseesHeld(db', f) && DirtyHeld(db', f) && LeasesAssigned(db', f)
  {
    forall n | Held(db, n) && !(release && n in r.nodes)
      ensures Held(db', n) && db'.reservations[n] == db.reservations[n]
    {
    }
  }

  /** Every task that processes an operation was there before. */
  ghost predicate NoNewRuns(w: World, w': World) {
    forall l | l in w'.tasks && !w'.tasks[l].RequestTask? :: l in w.tasks && w.tasks[l] == w'.tasks[l]
  }

  /** Operations look only at their own table, their tasks and the calls issued. */
  lemma OperationsSurvive(w: World, w': World)
    requires Operations(w) && NoNewRuns(w, w')
    requires w'.db.operations == w.db.operations && w'.issued == w.issued
    ensures Operations(w')
  {
    forall l | l in w'.tasks ensures Processed(w', w'.tasks[l]) {
      if !w'.tasks[l].RequestTask? { assert Processed(w, w.tasks[l]); }
    }
  }

  /** What the save of `r` by task k makes of the world. */
  ghost predicate Saves(w: World, w': World, k: nat, r: Request, action: Action, release: bool) {
    && k in w.tasks && w.tasks[k].RequestTask?
    && r.id in w.db.requests && w.tasks[k].item == w.db.requests[r.id]
    && LawfulSave(w.db.requests[r.id], r, w.tasks[k].actor.userId, w.tasks[k].actor.projectId, action, release, w.dcn)
    && w' == w.(db := Save(w.db, r, w.tasks[k].actor.userId, w.tasks[k].actor.projectId, action, release),
                tasks := w'.tasks)
    && OthersKept(w.tasks, w'.tasks, k)
    && (k in w'.tasks ==>
          && w'.tasks[k].RequestTask? && w'.tasks[k].item == r && Carries(w'.tasks[k].place) == Some(r.state)
          && Authorised(w'.tasks[k], w.dcn) && Progress(w.fleet, w'.tasks[k]))
  }

  ghost predicate MaySave(w: World, k: nat, r: Request, release: bool)
    requires k in w.tasks && w.tasks[k].RequestTask? && r.id in w.db.requests
  {
    && FleetAllows(w.fleet, w.db.requests[r.id], r, release)
    && (Carries(w.tasks[k].place).Some? || w.db.requests[r.id].state.Submitted? || w.db.requests[r.id].state.Leased?)
  }

  lemma SaveKeepsTables(w: World, w': World, k: nat, r: Request, action: Action, release: bool)
    requires Sound(w.db, w.dcn) && Saves(w, w', k, r, action, release)
    ensures Sound(w'.db, w.dcn)
  {
    SaveKeepsSound(w.db, w.dcn, r, w.tasks[k].actor.userId, w.tasks[k].actor.projectId, action, release);
  }

  lemma SaveKeepsTasks(w: World, w': World, k: nat, r: Request, action: Action, release: bool)
    requires Copies(w.db.requests, w.tasks) && Saves(w, w', k, r, action, release) && MaySave(w, k, r, release)
    ensures Copies(w'.db.requests, w'.tasks)
  {
    if Carries(w.tasks[k].place).None? { NobodyOwns(w.db.requests, w.tasks, r.id); }
    SaveKeepsCopies(w.db.requests, w.tasks, k, r, w'.tasks);
  }

  lemma SaveKeepsFleetFits(w: World, w': World, k: nat, r: Request, action: Action, release: bool)
    requires Exact(w.db) && FleetFits(w) && Saves(w, w', k, r, action, release) && MaySave(w, k, r, release)
    ensures FleetFits(w')
  {
    SaveKeepsFleet(w.db, w.fleet, r, w'.db, release);
  }

  lemma SaveKeepsInv(w: World, w': World, k: nat, r: Request, action: Action, release: bool)
    requires Inv(w) && Saves(w, w', k, r, action, release) && MaySave(w, k, r, release)
    ensures Inv(w')
  {
    SaveKeepsTables(w, w', k, r, action, release);
    SaveKeepsTasks(w, w', k, r, action, release);
    SaveKeepsFleetFits(w, w', k, r, action, release);
    AuthorisationKept(w.tasks, w'.tasks, k, w.dcn);
    OperationsSurvive(w, w');
  }

  // ---- the approval ----

  ghost predicate Approves(w: World, w': World, k: nat, r: Request) {
    && k in w.tasks && w.tasks[k].RequestTask?
    && r.id in w.db.requests && w.tasks[k].item == w.db.requests[r.id]
    && SameContract(w.db.requests[r.id], r) && w.db.requests[r.id].state.Submitted? && r.state.Approved?
    && r.version == w.db.requests[r.id].version + 1 && |r.nodes| == r.quantity
    && CanReserve(w.db, r, w.db.requests[r.id].version)
    && w.tasks[k].actor.projectId == w.dcn
    && w' == w.(db := Reserve(w.db, r, w.tasks[k].actor.userId, w.dcn, Action.Approve),
                tasks := w.tasks[k := RequestTask(w.tasks[k].actor, r, ToStartAllocation)])
  }

  lemma ApproveKeepsCopies(w: World, w': World, k: nat, r: Request)
    requires Copies(w.db.requests, w.tasks) && Approves(w, w', k, r)
    requires Decided(w.db.requests[r.id], r) == r && WellFormed(r)
    ensures Copies(w'.db.requests, w'.tasks)
  {
    NobodyOwns(w.db.requests, w.tasks, r.id);
    SaveKeepsCopies(w.db.requests, w.tasks, k, r, w'.tasks);
  }

  lemma ApproveKeepsFleet(w: World, w': World, k: nat, r: Request)
    requires FleetFits(w) && Approves(w, w', k, r)
    ensures FleetFits(w')
  {
    forall n | Held(w.db, n)
      ensures Held(w'.db, n) && w'.db.reservations[n] == w.db.reservations[n]
    {
    }
  }

  lemma ApproveKeepsTasks(w: World, w': World, k: nat, r: Request)
    requires Copies(w.db.requests, w.tasks) && AllAuthorised(w.tasks, w.dcn) && FleetFits(w) && Operations(w)
    requires Approves(w, w', k, r) && Decided(w.db.requests[r.id], r) == r && WellFormed(r)
    ensures Copies(w'.db.requests, w'.tasks) && AllAuthorised(w'.tasks, w.dcn) && FleetFits(w') && Operations(w')
  {
    ApproveKeepsCopies(w, w', k, r);
    ApproveKeepsFleet(w, w', k, r);
    AuthorisationKept(w.tasks, w'.tasks, k, w.dcn);
    OperationsSurvive(w, w');
  }

  lemma ApproveKeepsInv(w: World, w': World, k: nat, r: Request)
    requires Inv(w) && Approves(w, w', k, r)
    ensures Inv(w')
  {
    ReserveKeepsSound(w.db, w.dcn, r, w.tasks[k].actor.userId);
    ApproveKeepsTasks(w, w', k, r);
  }

  // ---- runtime calls ----

  /** At most node n is different. */
  ghost predicate ChangesOnly(f: Fleet, f': Fleet, n: string) {
    && f'.nodes.Keys == f.nodes.Keys
    && (forall m | m in f.nodes && m != n :: f'.nodes[m] == f.nodes[m])
    && (forall m | m != n :: m in f'.dirty <==> m in f.dirty)
    && (n in f'.dirty ==> n in f.dirty || n in f.nodes)
  }

  /** The nodes of a request that a task carries are nobody else's. */
  lemma OwnedNodesAreExclusive(w: World, k: nat, n: string)
    requires Exact(w.db) && Copies(w.db.requests, w.tasks)
    requires k in w.tasks && w.tasks[k].RequestTask? && Carries(w.tasks[k].place).Some? && n in w.tasks[k].item.nodes
    ensures ReservedFor(w.db, n, w.tasks[k].item.id)
    ensures forall id | id in w.db.requests && Holding(w.db.requests[id].state) && n in w.db.requests[id].nodes ::
              id == w.tasks[k].item.id
    ensures forall l | l in w.tasks && l != k && w.tasks[l].RequestTask? && Carries(w.tasks[l].place).Some? ::
              n !in w.tasks[l].item.nodes
  {
    var item := w.tasks[k].item;
    assert CopyFits(w.db.requests, w.tasks[k]);
    assert ReservedFor(w.db, n, item.id);
    forall id | id in w.db.requests && Holding(w.db.requests[id].state) && n in w.db.requests[id].nodes
      ensures id == item.id
    {
      assert ReservedFor(w.db, n, id);
    }
    forall l | l in w.tasks && l != k && w.tasks[l].RequestTask? && Carries(w.tasks[l].place).Some?
      ensures n !in w.tasks[l].item.nodes
    {
      assert CopyFits(w.db.requests, w.tasks[l]);
      assert Owns(w.tasks[k], item.id) && Owns(w.tasks[l], w.tasks[l].item.id);
    }
  }

  /** A runtime call of a lease task on one of its nodes. */
  ghost predicate Calls(w: World, w': World, k: nat, n: string) {
    && k in w.tasks && w.tasks[k].RequestTask? && Carries(w.tasks[k].place).Some?
    && (w.tasks[k].item.state.Allocating? || w.tasks[k].item.state.Cleaning?)
    && n in w.tasks[k].item.nodes
    && w' == w.(fleet := w'.fleet, tasks := w'.tasks)
    && ChangesOnly(w.fleet, w'.fleet, n)
    && (n in w.fleet.nodes ==>
          w'.fleet.nodes[n].lessee in {w.fleet.nodes[n].lessee, None, Some(w.tasks[k].item.projectId)})
    && k in w'.tasks && OthersKept(w.tasks, w'.tasks, k)
    && w'.tasks[k].RequestTask? && w'.tasks[k].item == w.tasks[k].item && w'.tasks[k].actor == w.tasks[k].actor
    && Carries(w'.tasks[k].place) == Carries(w.tasks[k].place)
    && Progress(w'.fleet, w'.tasks[k])
  }

  lemma CallKeepsOthersProgress(w: World, w': World, k: nat, n: string, l: nat)
    requires Exact(w.db) && Copies(w.db.requests, w.tasks) && Calls(w, w', k, n)
    requires l in w.tasks && l != k && Progress(w.fleet, w.tasks[l])
    ensures Progress(w'.fleet, w.tasks[l])
  {
    OwnedNodesAreExclusive(w, k, n);
    if w.tasks[l].RequestTask? && Carries(w.tasks[l].place).Some? {
      var nodes := w.tasks[l].item.nodes;
      assert forall j | 0 <= j < |nodes| :: nodes[j] in nodes && nodes[j] != n;
    }
  }

  lemma CallKeepsFleet(w: World, w': World, k: nat, n: string)
    requires Exact(w.db) && Copies(w.db.requests, w.tasks) && FleetFits(w) && Calls(w, w', k, n)
    ensures FleetFits(w')
  {
    OwnedNodesAreExclusive(w, k, n);
    assert CopyFits(w.db.requests, w.tasks[k]);
    forall l | l in w'.tasks
      ensures Progress(w'.fleet, w'.tasks[l])
    {
      if l != k { CallKeepsOthersProgress(w, w', k, n, l); }
    }
  }

  lemma CallKeepsCopies(w: World, w': World, k: nat, n: string)
    requires Copies(w.db.requests, w.tasks) && Calls(w, w', k, n)
    ensures Copies(w'.db.requests, w'.tasks)
  {
    assert CopyFits(w.db.requests, w.tasks[k]);
    forall l, m, id | l in w'.tasks && m in w'.tasks && Owns(w'.tasks[l], id) && Owns(w'.tasks[m], id)
      ensures l == m
    {
      assert Owns(w.tasks[l], id) && Owns(w.tasks[m], id);
    }
  }

  lemma CallKeepsInv(w: World, w': World, k: nat, n: string)
    requires Inv(w) && Calls(w, w', k, n)
    ensures Inv(w')
  {
    CallKeepsCopies(w, w', k, n);
    CallKeepsFleet(w, w', k, n);
    OperationsSurvive(w, w');
    assert Authorised(w.tasks[k], w.dcn);
  }

  /** What operations and the environment may do to a node: never its lessee, and a node
      that becomes dirty has a lessee and stops being available. */
  ghost predicate Disturbs(f: Fleet, f': Fleet, n: string) {
    && ChangesOnly(f, f', n)
    && (n in f.nodes ==> f'.nodes[n].lessee == f.nodes[n].lessee)
    && (n in f'.dirty && n !in f.dirty ==> n in f.nodes && f.nodes[n].lessee.Some?)
    && (CleanOrBlocked(f, n) ==> CleanOrBlocked(f', n))
  }

  lemma DisturbanceKeepsFleet(db: Db, f: Fleet, f': Fleet, tasks: map<nat, Task>, n: string)
    requires LesseesHeld(db, f) && DirtyHeld(db, f) && LeasesAssigned(db, f)
    requires (forall k | k in tasks :: Progress(f, tasks[k])) && Disturbs(f, f', n)
    ensures LesseesHeld(db, f') && DirtyHeld(db, f') && LeasesAssigned(db, f')
    ensures forall k | k in tasks :: Progress(f', tasks[k])
  {
    assert forall m, p :: HasLessee(f, m, p) ==> HasLessee(f', m, p);
    assert forall m :: CleanOrBlocked(f, m) ==> CleanOrBlocked(f', m);
    assert forall m :: Cleared(f, m) ==> Cleared(f', m);
  }

  // ---- operations ----

  /** Every lease task was there before. */
  ghost predicate NoNewLeaseTasks(w: World, w': World) {
    forall l | l in w'.tasks && w'.tasks[l].RequestTask? :: l in w.tasks && w.tasks[l] == w'.tasks[l]
  }

  /** Lease tasks do not look at the operation tables. */
  lemma LeaseTasksSurvive(w: World, w': World)
    requires Copies(w.db.requests, w.tasks) && FleetFits(w) && NoNewLeaseTasks(w, w')
    requires w'.db.requests == w.db.requests && w'.db.reservations == w.db.reservations && w'.fleet == w.fleet
    ensures Copies(w'.db.requests, w'.tasks) && FleetFits(w')
  {
    forall l | l in w'.tasks
      ensures CopyFits(w'.db.requests, w'.tasks[l]) && Progress(w'.fleet, w'.tasks[l])
    {
      if w'.tasks[l].RequestTask? { assert CopyFits(w.db.requests, w.tasks[l]) && Progress(w.fleet, w.tasks[l]); }
    }
    forall l, m, id | l in w'.tasks && m in w'.tasks && Owns(w'.tasks[l], id) && Owns(w'.tasks[m], id)
      ensures l == m
    {
      assert Owns(w.tasks[l], id) && Owns(w.tasks[m], id);
    }
  }

  lemma OperationStepKeepsInv(w: World, w': World)
    requires Inv(w) && Operations(w') && NoNewLeaseTasks(w, w') && w'.dcn == w.dcn && w'.fleet == w.fleet
    requires w'.db == w.db.(operations := w'.db.operations) && w'.db.operations.Keys == w.db.operations.Keys
    requires forall id | id in w.db.operations ::
               var op, op' := w.db.operations[id], w'.db.operations[id];
               op'.(state := op.state, error := op.error) == op && (op'.Active() ==> op.Active())
    ensures Inv(w')
  {
    OperationUpdateKeepsSound(w.db, w'.db, w.dcn);
    LeaseTasksSurvive(w, w');
  }

  // ---- the fleet grows ----

  lemma GrowthKeepsFleet(db: Db, f: Fleet, f': Fleet, tasks: map<nat, Task>, n: string)
    requires LesseesHeld(db, f) && DirtyHeld(db, f) && LeasesAssigned(db, f)
    requires forall k | k in tasks :: Progress(f, tasks[k])
    requires n !in f.nodes && n in f'.nodes && f'.nodes == f.nodes[n := f'.nodes[n]]
    requires f'.nodes[n].lessee.None? && f'.dirty == f.dirty
    ensures LesseesHeld(db, f') && DirtyHeld(db, f') && LeasesAssigned(db, f')
    ensures forall k | k in tasks :: Progress(f', tasks[k])
  {
    assert forall m, p :: HasLessee(f, m, p) ==> HasLessee(f', m, p);
    assert forall m :: CleanOrBlocked(f, m) ==> CleanOrBlocked(f', m);
    assert forall m :: Cleared(f, m) ==> Cleared(f', m);
  }
}
