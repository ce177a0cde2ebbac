/** Bare metal nodes as Ironic keeps them, the guards of the lease calls, and manual cleaning. */
module Ironic {
  import opened Base
  import opened Tables

  datatype ProvisionState = Available | Active | Manageable | OtherState(name: string)

  /** What Ironic changes by itself. */
  datatype Condition = Condition(provision: ProvisionState, maintenance: bool, lastError: Option<string>) {
    predicate AvailableWithoutError() {
      provision.Available? && !Truthy(lastError)
    }
  }

  datatype Node = Node(owner: Option<string>, lessee: Option<string>, condition: Condition) {
    predicate CanAssign(project: string, dcn: string) {
      && owner == Some(dcn)
      && (Truthy(lessee) ==> lessee.value == project)
      && condition.AvailableWithoutError() && !condition.maintenance
    }

    predicate LeasedTo(project: string, dcn: string) {
      && owner == Some(dcn) && lessee == Some(project)
      && !condition.maintenance && !Truthy(condition.lastError)
    }

    predicate CanDeploy(project: string, dcn: string) {
      LeasedTo(project, dcn) && condition.provision.Available?
    }

    predicate CanPower(project: string, dcn: string) {
      LeasedTo(project, dcn) && condition.provision.Active?
    }
  }

  /** How a runtime call ends once its guard let it through: `after` is the condition Ironic leaves,
      and a call that breaks off may have been applied or not. */
  datatype Reply =
    | Completed(after: Condition)
    | Broke(text: string, applied: bool, after: Condition)

  /** The fleet, and the nodes some tenant may have written on since their last full cleaning. */
  datatype Fleet = Fleet(nodes: map<string, Node>, dirty: set<string>)

  /** The fleet after a runtime call, and the text of its exception if it raised. */
  datatype Outcome = Outcome(fleet: Fleet, error: Option<string>)

  const REFUSED := "refused"

  function SetLessee(f: Fleet, n: string, lessee: Option<string>): Fleet
    requires n in f.nodes
  {
    Fleet(f.nodes[n := f.nodes[n].(lessee := lessee)], if lessee.Some? then f.dirty + {n} else f.dirty)
  }

  function SetCondition(f: Fleet, n: string, c: Condition): Fleet
    requires n in f.nodes
  {
    f.(nodes := f.nodes[n := f.nodes[n].(condition := c)])
  }

  function AssignLessee(f: Fleet, n: string, project: string, dcn: string, reply: Reply): Outcome {
    if n !in f.nodes || !f.nodes[n].CanAssign(project, dcn) then Outcome(f, Some(REFUSED))
    else match reply
      case Completed(_) => Outcome(SetLessee(f, n, Some(project)), None)
      case Broke(text, applied, _) => Outcome(if applied then SetLessee(f, n, Some(project)) else f, Some(text))
  }

  function ClearLessee(f: Fleet, n: string, reply: Reply): Outcome {
    if n !in f.nodes || !f.nodes[n].condition.AvailableWithoutError() then Outcome(f, Some(REFUSED))
    else match reply
      case Completed(_) => Outcome(SetLessee(f, n, None), None)
      case Broke(text, applied, _) => Outcome(if applied then SetLessee(f, n, None) else f, Some(text))
  }

  /** `ManualCleaning.Conversation` below says when return_and_clean can complete; when it breaks off,
      the node is left in any condition at all. */
  function ReturnAndClean(f: Fleet, n: string, reply: Reply): Outcome {
    if n !in f.nodes then Outcome(f, Some(REFUSED))
    else match reply
      case Completed(after) =>
        var start := f.nodes[n].condition.provision;
        if after.AvailableWithoutError() && (start.Available? || start.Active?)
        then Outcome(SetCondition(f, n, after).(dirty := f.dirty - {n}), None)
        else Outcome(f, Some(REFUSED))
      case Broke(text, applied, after) =>
        Outcome(if applied then SetCondition(f, n, after) else f, Some(text))
  }

  function RunDeploy(f: Fleet, n: string, project: string, dcn: string, reply: Reply): Outcome {
    if n !in f.nodes || !f.nodes[n].CanDeploy(project, dcn) then Outcome(f, Some(REFUSED))
    else match reply
      case Completed(after) =>
        Outcome(SetCondition(f, n, after.(provision := Active)).(dirty := f.dirty + {n}), None)
      case Broke(text, applied, after) =>
        if applied && !after.provision.Available?
        then Outcome(SetCondition(f, n, after).(dirty := f.dirty + {n}), Some(text))
        else Outcome(f, Some(text))
  }

  function RunPower(f: Fleet, n: string, project: string, dcn: string, reply: Reply): Outcome {
    if n !in f.nodes || !f.nodes[n].CanPower(project, dcn) then Outcome(f, Some(REFUSED))
    else match reply
      case Completed(after) => Outcome(SetCondition(f, n, after.(provision := Active)), None)
      case Broke(text, applied, after) =>
        Outcome(if applied then SetCondition(f, n, after.(provision := Active)) else f, Some(text))
  }

  const SUPPORTED: set<string> := {"on", "off", "reboot", "soft off", "soft reboot"}

  function RunCommand(f: Fleet, op: Operation, dcn: string, reply: Reply): Outcome {
    match op.command
    case Deploy(_, _) => RunDeploy(f, op.node, op.projectId, dcn, reply)
    case Power(target) =>
      if target in SUPPORTED then RunPower(f, op.node, op.projectId, dcn, reply) else Outcome(f, Some(REFUSED))
    case OtherCommand(_, _) => Outcome(f, Some("unsupported queued operation"))
  }
}

/** return_and_clean against an Ironic that may answer every request with any node at all. */
module ManualCleaning {
  import opened Base
  import opened Ironic

  datatype Request = GetNode | Delete | Manage | Clean(steps: seq<string>) | Provide

  /** A request and Ironic's answer: a node condition, or an exception. */
  datatype Exchange = Exchange(node: string, request: Request, answer: Option<Condition>)

  /** The observation that lets the next request go out. */
  predicate Good(x: Exchange) {
    && x.answer.Some?
    && match x.request
       case GetNode => x.answer.value.provision.Active? || x.answer.value.AvailableWithoutError()
       case Delete => x.answer.value.AvailableWithoutError()
       case Manage => x.answer.value.provision.Manageable? && !Truthy(x.answer.value.lastError)
       case Clean(_) => x.answer.value.provision.Manageable? && !Truthy(x.answer.value.lastError)
       case Provide => x.answer.value.AvailableWithoutError()
  }

  /** An answer lets the conversation go on exactly when it shows the state that the request is meant to reach, without
      error; a node that is found active goes on to be undeployed whatever its error. */
  lemma GoodExactly(x: Exchange)
    ensures Good(x) <==>
              && x.answer.Some?
              && var c := x.answer.value;
              && (c.lastError in {None, Some("")} || (x.request == GetNode && c.provision == Active))
              && match x.request
                 case GetNode => c.provision in {Available, Active}
                 case Delete => c.provision == Available
                 case Manage => c.provision == Manageable
                 case Clean(_) => c.provision == Manageable
                 case Provide => c.provision == Available
  {
  }

  /** The whole script, once the first answer is known. */
  function Script(first: Option<Condition>, steps: seq<string>): seq<Request> {
    if first.Some? && first.value.provision.Active? then [GetNode, Delete, Manage, Clean(steps), Provide]
    else [GetNode, Manage, Clean(steps), Provide]
  }

  /** `xs` follows the script for node `n` and goes on only after good answers. */
  ghost predicate Conversation(xs: seq<Exchange>, n: string, steps: seq<string>) {
    |xs| > 0 ==>
      && |xs| <= |Script(xs[0].answer, steps)|
      && (forall i | 0 <= i < |xs| :: xs[i].node == n && xs[i].request == Script(xs[0].answer, steps)[i])
      && (forall i | 0 <= i < |xs| - 1 :: Good(xs[i]))
  }

  /** Every answer so far was good. */
  ghost predicate Ready(xs: seq<Exchange>, n: string, steps: seq<string>) {
    xs != [] && Conversation(xs, n, steps) && Good(xs[|xs| - 1])
  }

  /** The script was played to its end and every answer was good. */
  ghost predicate Cleaned(xs: seq<Exchange>, n: string, steps: seq<string>) {
    Ready(xs, n, steps) && |xs| == |Script(xs[0].answer, steps)|
  }

  /** The node answered, without error, in this provision state. */
  predicate Observed(answer: Option<Condition>, state: ProvisionState) {
    answer.Some? && answer.value.provision == state && (answer.value.lastError in {None, Some("")})
  }

  /** What a completed cleaning is: exactly these requests to this node, each answered by the state it is meant to
      reach and without error, from an active or available node. */
  ghost predicate FullScript(xs: seq<Exchange>, n: string, steps: seq<string>) {
    && xs != [] && xs[0].answer.Some?
    && (forall x | x in xs :: x.node == n)
    && if xs[0].answer.value.provision == Active then
         && Requests(xs) == [GetNode, Delete, Manage, Clean(steps), Provide]
         && Observed(xs[1].answer, Available) && Observed(xs[2].answer, Manageable)
         && Observed(xs[3].answer, Manageable) && Observed(xs[4].answer, Available)
       else
         && Requests(xs) == [GetNode, Manage, Clean(steps), Provide]
         && Observed(xs[0].answer, Available) && Observed(xs[1].answer, Manageable)
         && Observed(xs[2].answer, Manageable) && Observed(xs[3].answer, Available)
  }

  function Requests(xs: seq<Exchange>): (rs: seq<Request>)
    ensures |rs| == |xs| && forall i | 0 <= i < |xs| :: rs[i] == xs[i].request
  {
    seq(|xs|, i requires 0 <= i < |xs| => xs[i].request)
  }

  class Connection {
    var log: seq<Exchange>

    constructor ()
      ensures log == []
    {
      log := [];
    }

    /** Ironic answers as it likes. */
    method Send(n: string, request: Request) returns (answer: Option<Condition>)
      modifies this
      ensures log == old(log) + [Exchange(n, request, answer)]
    {
      answer := *;
      log := log + [Exchange(n, request, answer)];
    }

    /** Send the next request of the script. */
    method Ask(n: string, request: Request, steps: seq<string>, ghost before: seq<Exchange>, ghost xs: seq<Exchange>)
      returns (answer: Option<Condition>, ghost ys: seq<Exchange>)
      requires Ready(xs, n, steps) && |xs| < |Script(xs[0].answer, steps)|
      requires request == Script(xs[0].answer, steps)[|xs|]
      requires log == before + xs
      modifies this
      ensures |ys| == |xs| + 1 && ys[|xs|] == Exchange(n, request, answer) && ys[0] == xs[0]
      ensures log == before + ys
      ensures Conversation(ys, n, steps) && (Good(ys[|xs|]) ==> Ready(ys, n, steps))
    {
      answer := Send(n, request);
      ys := xs + [Exchange(n, request, answer)];
    }

    /** Normal return means the full script with every observation good; an exception means no request
        was sent after the first bad observation. */
    method ReturnAndClean(n: string, steps: seq<string>) returns (ok: bool, ghost xs: seq<Exchange>)
      modifies this
      ensures log == old(log) + xs
      ensures Conversation(xs, n, steps)
      ensures ok <==> steps != [] && Cleaned(xs, n, steps)
      ensures ok ==> FullScript(xs, n, steps)
      ensures !ok ==> if steps == [] then xs == [] else xs != [] && !Good(xs[|xs| - 1])
    {
      xs := [];
      if steps == [] { return false, xs; }
      var node := Send(n, GetNode);
      xs := [Exchange(n, GetNode, node)];
      if node.None? { return false, xs; }
      if node.value.provision.Active? {
        node, xs := Ask(n, Delete, steps, old(log), xs);
        if node.None? { return false, xs; }
      }
      if !node.value.AvailableWithoutError() { return false, xs; }
      ok, xs := CleanManually(n, steps, old(log), xs);
    }

    /** The part of the script from an available node on. */
    method CleanManually(n: string, steps: seq<string>, ghost before: seq<Exchange>, ghost done: seq<Exchange>)
      returns (ok: bool, ghost xs: seq<Exchange>)
      requires Ready(done, n, steps) && |done| == |Script(done[0].answer, steps)| - 3 && log == before + done
      modifies this
      ensures log == before + xs && Conversation(xs, n, steps)
      ensures ok <==> Cleaned(xs, n, steps)
      ensures ok ==> FullScript(xs, n, steps)
      ensures !ok ==> xs != [] && !Good(xs[|xs| - 1])
    {
      var node;
      node, xs := Ask(n, Manage, steps, before, done);
      if node.None? || !node.value.provision.Manageable? || Truthy(node.value.lastError) { return false, xs; }
      node, xs := Ask(n, Clean(steps), steps, before, xs);
      if node.None? || !node.value.provision.Manageable? || Truthy(node.value.lastError) { return false, xs; }
      node, xs := Ask(n, Provide, steps, before, xs);
      if node.None? || !node.value.AvailableWithoutError() { return false, xs; }
      CleanedMeansFullScript(xs, n, steps);
      return true, xs;
    }
  }

  lemma CleanedMeansFullScript(xs: seq<Exchange>, n: string, steps: seq<string>)
    requires Cleaned(xs, n, steps)
    ensures FullScript(xs, n, steps)
  {
    var script := Script(xs[0].answer, steps);
    assert Requests(xs) == script;
    forall i | 0 <= i < |xs|
      ensures Good(xs[i]) && xs[i].request == script[i]
    {
    }
    GoodExactly(xs[0]);
    GoodExactly(xs[1]);
    GoodExactly(xs[2]);
    GoodExactly(xs[3]);
    if xs[0].answer.value.provision.Active? { GoodExactly(xs[4]); }
  }

  /** A conversation that cleaned a node is what the fleet model calls a completed cleaning. */
  lemma CleanedCompletes(f: Fleet, xs: seq<Exchange>, n: string, steps: seq<string>)
    requires Cleaned(xs, n, steps)
    requires n in f.nodes && xs[0].answer == Some(f.nodes[n].condition)
    ensures xs[|xs| - 1].answer.Some?
    ensures var after := xs[|xs| - 1].answer.value;
            var outcome := Ironic.ReturnAndClean(f, n, Completed(after));
            && outcome.error.None? && n !in outcome.fleet.dirty
            && outcome.fleet.nodes == f.nodes[n := f.nodes[n].(condition := after)]
            && after.AvailableWithoutError()
  {
    CleanedMeansFullScript(xs, n, steps);
  }
}
