/** The lease calls against Ironic, as the service makes them, and the fleet they change in place. */
module Runtime {
  import opened Base
  import opened Ironic

  /** Each call is one atomic step; `reply` is what Ironic and NetBox make of it once its guard let it through. */
  class LeaseRuntime {
    var fleet: Fleet

    constructor (f: Fleet)
      ensures fleet == f
    {
      fleet := f;
    }

    method AssignLessee(n: string, project: string, dcn: string) returns (error: Option<string>, reply: Reply)
      modifies this
      ensures Outcome(fleet, error) == Ironic.AssignLessee(old(fleet), n, project, dcn, reply)
      ensures var nodes, dirty := old(fleet.nodes), old(fleet.dirty);
              var may := && n in nodes && nodes[n].owner == Some(dcn)
                         && nodes[n].lessee in {None, Some(""), Some(project)}
                         && nodes[n].condition.provision == Available && !nodes[n].condition.maintenance
                         && nodes[n].condition.lastError in {None, Some("")};
              && (error.None? <==> may && reply.Completed?)
              && (error.None? || fleet != old(fleet) ==>
                    may && fleet == Fleet(nodes[n := nodes[n].(lessee := Some(project))], dirty + {n}))
    {
      reply := *;
      if n !in fleet.nodes { return Some(REFUSED), reply; }
      var node := fleet.nodes[n];
      if node.owner != Some(dcn) { return Some(REFUSED), reply; }
      if Truthy(node.lessee) && node.lessee.value != project { return Some(REFUSED), reply; }
      if node.condition.provision != Available || node.condition.maintenance || Truthy(node.condition.lastError) {
        return Some(REFUSED), reply;
      }
      match reply
      case Completed(_) =>
        fleet := SetLessee(fleet, n, Some(project));
        return None, reply;
      case Broke(text, applied, _) =>
        if applied { fleet := SetLessee(fleet, n, Some(project)); }
        return Some(text), reply;
    }

    method ReturnAndClean(n: string) returns (error: Option<string>, reply: Reply)
      modifies this
      ensures Outcome(fleet, error) == Ironic.ReturnAndClean(old(fleet), n, reply)
      ensures error.None? ==>
                && n in old(fleet.nodes) && n in fleet.nodes
                && old(fleet.nodes)[n].condition.provision in {Available, Active}
                && fleet.nodes[n].condition.provision == Available
                && fleet.nodes[n].condition.lastError in {None, Some("")}
                && fleet.dirty == old(fleet.dirty) - {n}
      ensures error.Some? ==> fleet.dirty == old(fleet.dirty)
      ensures fleet != old(fleet) ==>
                && n in old(fleet.nodes) && n in fleet.nodes
                && fleet.nodes
                   == old(fleet.nodes)[n := old(fleet.nodes)[n].(condition := fleet.nodes[n].condition)]
    {
      reply := *;
      var outcome := Ironic.ReturnAndClean(fleet, n, reply);
      fleet := outcome.fleet;
      return outcome.error, reply;
    }

    method ClearLessee(n: string) returns (error: Option<string>, reply: Reply)
      modifies this
      ensures Outcome(fleet, error) == Ironic.ClearLessee(old(fleet), n, reply)
      ensures var nodes, dirty := old(fleet.nodes), old(fleet.dirty);
              var may := && n in nodes && nodes[n].condition.provision == Available
                         && nodes[n].condition.lastError in {None, Some("")};
              && (error.None? <==> may && reply.Completed?)
              && (error.None? || fleet != old(fleet) ==>
                    may && fleet == Fleet(nodes[n := nodes[n].(lessee := None)], dirty))
    {
      reply := *;
      if n !in fleet.nodes { return Some(REFUSED), reply; }
      var condition := fleet.nodes[n].condition;
      if condition.provision != Available || Truthy(condition.lastError) { return Some(REFUSED), reply; }
      match reply
      case Completed(_) =>
        fleet := SetLessee(fleet, n, None);
        return None, reply;
      case Broke(text, applied, _) =>
        if applied { fleet := SetLessee(fleet, n, None); }
        return Some(text), reply;
    }

    method Deploy(n: string, project: string, dcn: string) returns (error: Option<string>, reply: Reply)
      modifies this
      ensures Outcome(fleet, error) == RunDeploy(old(fleet), n, project, dcn, reply)
      ensures var nodes, dirty := old(fleet.nodes), old(fleet.dirty);
              var may := && n in nodes && nodes[n].owner == Some(dcn) && nodes[n].lessee == Some(project)
                         && !nodes[n].condition.maintenance && nodes[n].condition.lastError in {None, Some("")}
                         && nodes[n].condition.provision == Available;
              && (error.None? <==> may && reply.Completed?)
              && (error.None? || fleet != old(fleet) ==>
                    && may && n in fleet.nodes && fleet.nodes[n].condition.provision != Available
                    && (error.None? ==> fleet.nodes[n].condition.provision == Active)
                    && fleet == Fleet(nodes[n := nodes[n].(condition := fleet.nodes[n].condition)], dirty + {n}))
    {
      reply := *;
      if n !in fleet.nodes || !fleet.nodes[n].LeasedTo(project, dcn) { return Some(REFUSED), reply; }
      if fleet.nodes[n].condition.provision != Available { return Some(REFUSED), reply; }
      match reply
      case Completed(after) =>
        fleet := SetCondition(fleet, n, after.(provision := Active)).(dirty := fleet.dirty + {n});
        return None, reply;
      case Broke(text, applied, after) =>
        if applied && after.provision != Available {
          fleet := SetCondition(fleet, n, after).(dirty := fleet.dirty + {n});
        }
        return Some(text), reply;
    }

    method SetPower(n: string, project: string, target: string, dcn: string)
      returns (error: Option<string>, reply: Reply)
      modifies this
      ensures Outcome(fleet, error) == if target in SUPPORTED then RunPower(old(fleet), n, project, dcn, reply)
                                       else Outcome(old(fleet), Some(REFUSED))
      ensures var nodes, dirty := old(fleet.nodes), old(fleet.dirty);
              var may := && n in nodes && nodes[n].owner == Some(dcn) && nodes[n].lessee == Some(project)
                         && !nodes[n].condition.maintenance && nodes[n].condition.lastError in {None, Some("")}
                         && nodes[n].condition.provision == Active
                         && target in {"on", "off", "reboot", "soft off", "soft reboot"};
              && (error.None? <==> may && reply.Completed?)
              && (error.None? || fleet != old(fleet) ==>
                    && may && n in fleet.nodes && fleet.nodes[n].condition.provision == Active
                    && fleet == Fleet(nodes[n := nodes[n].(condition := fleet.nodes[n].condition)], dirty))
    {
      reply := *;
      if target !in SUPPORTED { return Some(REFUSED), reply; }
      if n !in fleet.nodes || !fleet.nodes[n].LeasedTo(project, dcn) { return Some(REFUSED), reply; }
      if fleet.nodes[n].condition.provision != Active { return Some(REFUSED), reply; }
      match reply
      case Completed(after) =>
        fleet := SetCondition(fleet, n, after.(provision := Active));
        return None, reply;
      case Broke(text, applied, after) =>
        if applied { fleet := SetCondition(fleet, n, after.(provision := Active)); }
        return Some(text), reply;
    }
  }
}
