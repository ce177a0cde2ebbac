/** The states that the other modules speak of are reached from every start with one good node. */
module Reaching {
  import opened Base
  import opened Domain
  import opened Tables
  import opened Ironic
  import opened Protocol
  import opened Steps
  import opened ReturnRace
  import opened Stranded

  /** A request for one node for a day. */
  function Wanted(lessee: Actor, id: string, profile: string): Request {
    NewRequest(lessee, id, profile, 1, "", DAY, None)
  }

  function Chosen(lessee: Actor, admin: Actor, id: string, profile: string, n: string): Request {
    Wanted(lessee, id, profile).(nodes := [n], reviewer := Some(admin.userId), state := Approved, version := 1)
  }

  function Leased(lessee: Actor, admin: Actor, id: string, profile: string, n: string): Request {
    Chosen(lessee, admin, id, profile, n).(state := RequestState.Leased, version := 3)
  }

  /** The inventory when node `n` is all it has. */
  function OnlyOffer(n: string, profile: string): seq<OfferCandidate> {
    [OfferCandidate(n, "", profile, true, true, true, false, None, None, 1)]
  }

  /** The request is made, approved at once, its node is assigned, and it is leased. */
  function LeaseSteps(lessee: Actor, admin: Actor, id: string, profile: string, n: string, c: Condition): seq<Step> {
    [CreateRequest(lessee, id, profile, 1, "", DAY, None, None), BeginApprove(0, id, admin, None),
     Continue(0, Offers(OnlyOffer(n, profile), 0)), Continue(0, Nothing), Continue(0, Answer(Completed(c))),
     Continue(0, Nothing)]
  }

  lemma Approval(lessee: Actor, admin: Actor, dcn: string, id: string, profile: string, n: string)
    requires admin.IsAdmin(dcn)
    ensures Wanted(lessee, id, profile).Approve(admin, dcn, OnlyOffer(n, profile), 0)
            == Ok(Chosen(lessee, admin, id, profile, n))
  {
    var r, offers := Wanted(lessee, id, profile), OnlyOffer(n, profile);
    assert offers[..0] == [];
    assert r.Suitable(offers[..0], 1) == [];
    assert RemainingDays(r.requestedUntil, 0) == 1;
    assert r.Suitable(offers, 1) == offers;
    assert NodesOf(TakeFirst(offers, 1)) == [n];
  }

  lemma FirstThree(w: World, lessee: Actor, admin: Actor, id: string, profile: string, n: string)
    requires Initial(w) && admin.IsAdmin(w.dcn)
    ensures var approved := Chosen(lessee, admin, id, profile, n);
            var w1 := Apply(w, CreateRequest(lessee, id, profile, 1, "", DAY, None, None));
            var w2 := Apply(w1, BeginApprove(0, id, admin, None));
            var w3 := Apply(w2, Continue(0, Offers(OnlyOffer(n, profile), 0)));
            && w3.dcn == w.dcn && w3.fleet == w.fleet
            && w3.tasks == map[0 := RequestTask(admin, approved, ToStartAllocation)]
            && w3.db.requests == map[id := approved] && w3.db.operations == map[]
  {
    Approval(lessee, admin, w.dcn, id, profile, n);
  }

  lemma AllocationStarts(w: World, admin: Actor, r: Request)
    requires w.tasks == map[0 := RequestTask(admin, r, ToStartAllocation)] && w.db.requests == map[r.id := r]
    requires r.state.Approved?
    ensures var allocating := r.(state := Allocating, version := r.version + 1);
            var w' := Apply(w, Continue(0, Nothing));
            && w'.tasks == map[0 := RequestTask(admin, allocating, ToAssign(0))]
            && w'.db.requests == map[r.id := allocating] && w'.db.operations == w.db.operations
            && w'.fleet == w.fleet && w'.dcn == w.dcn
  {
  }

  lemma NodeIsAssigned(w: World, admin: Actor, r: Request, n: string, c: Condition)
    requires w.tasks == map[0 := RequestTask(admin, r, ToAssign(0))] && r.nodes == [n]
    requires n in w.fleet.nodes && w.fleet.nodes[n].CanAssign(r.projectId, w.dcn)
    ensures var w' := Apply(w, Continue(0, Answer(Completed(c))));
            w'.tasks == map[0 := RequestTask(admin, r, ToAssign(1))] && w'.db == w.db
  {
  }

  lemma AllocationEnds(w: World, admin: Actor, r: Request)
    requires w.tasks == map[0 := RequestTask(admin, r, ToAssign(1))] && w.db.requests == map[r.id := r]
    requires r.state.Allocating? && |r.nodes| == 1
    ensures var w' := Apply(w, Continue(0, Nothing));
            && w'.tasks == map[] && w'.db.operations == w.db.operations
            && w'.db.requests == map[r.id := r.(state := RequestState.Leased, version := r.version + 1)]
  {
  }

  lemma LastThree(w: World, admin: Actor, r: Request, n: string, c: Condition)
    requires w.tasks == map[0 := RequestTask(admin, r, ToStartAllocation)] && w.db.requests == map[r.id := r]
    requires r.state.Approved? && r.nodes == [n] && n in w.fleet.nodes && w.fleet.nodes[n].CanAssign(r.projectId, w.dcn)
    ensures var w' := Apply(Apply(Apply(w, Continue(0, Nothing)), Continue(0, Answer(Completed(c)))),
                            Continue(0, Nothing));
            && w'.tasks == map[] && w'.db.operations == w.db.operations
            && w'.db.requests == map[r.id := r.(state := RequestState.Leased, version := r.version + 2)]
  {
    var allocating := r.(state := Allocating, version := r.version + 1);
    AllocationStarts(w, admin, r);
    var w1 := Apply(w, Continue(0, Nothing));
    NodeIsAssigned(w1, admin, allocating, n, c);
    AllocationEnds(Apply(w1, Continue(0, Answer(Completed(c)))), admin, allocating);
  }

  /** Six steps lead from any start with an assignable node to a lease of it. */
  lemma LeaseIsReached(w: World, lessee: Actor, admin: Actor, id: string, profile: string, n: string, c: Condition)
    requires Initial(w) && admin.IsAdmin(w.dcn)
    requires n in w.fleet.nodes && w.fleet.nodes[n].CanAssign(lessee.projectId, w.dcn)
    ensures var w' := Run(w, LeaseSteps(lessee, admin, id, profile, n, c));
            && w'.tasks == map[] && w'.db.operations == map[]
            && id in w'.db.requests
            && w'.db.requests[id] == Leased(lessee, admin, id, profile, n)
  {
    var steps := LeaseSteps(lessee, admin, id, profile, n, c);
    var approved := Chosen(lessee, admin, id, profile, n);
    FirstThree(w, lessee, admin, id, profile, n);
    ThreeStepsRun(w, steps[0], steps[1], steps[2]);
    var w3 := Run(w, [steps[0], steps[1], steps[2]]);
    LastThree(w3, admin, approved, n, c);
    ThreeStepsRun(w3, steps[3], steps[4], steps[5]);
    RunConcat(w, [steps[0], steps[1], steps[2]], [steps[3], steps[4], steps[5]]);
    assert steps == [steps[0], steps[1], steps[2]] + [steps[3], steps[4], steps[5]];
  }

  lemma ThreeStepsRun(w: World, s: Step, t: Step, u: Step)
    ensures Run(w, [s, t, u]) == Apply(Apply(Apply(w, s), t), u)
  {
    assert [s, t, u][1..] == [t, u] && [t, u][1..] == [u] && [u][1..] == [];
    assert Run(Apply(Apply(w, s), t), [u]) == Apply(Apply(Apply(w, s), t), u);
    assert Run(Apply(w, s), [t, u]) == Run(Apply(Apply(w, s), t), [u]);
  }

  /** And on: a return overtakes a queueing of that lease, which raises and leaves its operation behind. */
  lemma RaceIsReached(w: World, lessee: Actor, admin: Actor, id: string, profile: string, n: string, c: Condition,
                      command: Command, operationId: string)
    requires Initial(w) && admin.IsAdmin(w.dcn) && lessee.CanOperate()
    requires n in w.fleet.nodes && w.fleet.nodes[n].CanAssign(lessee.projectId, w.dcn)
    ensures var r := Leased(lessee, admin, id, profile, n);
            var steps := LeaseSteps(lessee, admin, id, profile, n, c)
                         + (BadInterleaving(0, 1, r, lessee, n, command, operationId) + [Continue(1, Nothing)]);
            var db := Run(w, steps).db;
            && id in db.requests && db.requests[id].state.Cleaning?
            && operationId in db.operations && db.operations[operationId].state.Queued?
            && db.operations[operationId].requestId == id && NodeBusy(db, n)
  {
    var lease, r := LeaseSteps(lessee, admin, id, profile, n, c), Leased(lessee, admin, id, profile, n);
    var race := BadInterleaving(0, 1, r, lessee, n, command, operationId);
    var leased := Run(w, lease);
    LeaseIsReached(w, lessee, admin, id, profile, n, c);
    ReachableInv(w, lease);
    QueueingCanBeStranded(leased, 0, 1, id, lessee, n, command, operationId);
    RunConcat(w, lease, race + [Continue(1, Nothing)]);
    RunThenStep(leased, race, Continue(1, Nothing));
  }
}
