/** The reconciler between NetBox and Ironic: what one run does, and that two runs settle. */
module Reconcile {
  import opened Base
  import Order

  /** The five custom fields that mirror a node; None where NetBox has no value. */
  datatype Status = Status(power: Option<string>, provision: Option<string>, maintenance: Option<bool>,
                           lastError: Option<string>, lessee: Option<string>)

  datatype Device = Device(
    name: string, uuid: Option<string>, managed: bool, bmcAddress: Option<string>, bmcSecret: Option<string>,
    driver: Option<string>, resourceClass: Option<string>, propertiesParse: bool, status: Status,
    otherFields: map<string, string>, macs: set<string>) {

    predicate Complete() {
      Truthy(bmcAddress) && Truthy(bmcSecret) && Truthy(driver) && Truthy(resourceClass)
    }

    /** A run creates a node for this device. */
    predicate Pending() {
      !Truthy(uuid) && managed && Complete() && macs != {} && propertiesParse
    }

    /** A run passes this device over. */
    predicate Skipped() {
      !Truthy(uuid) && managed && !Pending()
    }

    predicate On(nodes: map<string, NodeRecord>) {
      Truthy(uuid) && uuid.value in nodes
    }

    predicate Outdated(nodes: map<string, NodeRecord>) {
      On(nodes) && status != Mirror(nodes[uuid.value])
    }
  }

  datatype NodeRecord = NodeRecord(name: Option<string>, driver: Option<string>, power: Option<string>,
                       provision: Option<string>, maintenance: bool, lastError: Option<string>, lessee: Option<string>)

  /** NetBox's servers with their interfaces, and Ironic's nodes with their ports. */
  datatype Site = Site(devices: seq<Device>, nodes: map<string, NodeRecord>, ports: map<string, set<string>>)

  datatype Counts = Counts(created: nat, discovered: nat, statusUpdates: nat, portsCreated: nat, skipped: nat)

  function OrEmpty(s: Option<string>): Option<string> {
    Some(if s.Some? then s.value else "")
  }

  function Mirror(n: NodeRecord): Status {
    Status(OrEmpty(n.power), OrEmpty(n.provision), Some(n.maintenance), OrEmpty(n.lastError), OrEmpty(n.lessee))
  }

  /** The mirror, field by field. */
  lemma MirrorExactly(n: NodeRecord)
    ensures Mirror(n).power == Some(if n.power == None then "" else n.power.value)
    ensures Mirror(n).provision == Some(if n.provision == None then "" else n.provision.value)
    ensures Mirror(n).maintenance == Some(n.maintenance)
    ensures Mirror(n).lastError == Some(if n.lastError == None then "" else n.lastError.value)
    ensures Mirror(n).lessee == Some(if n.lessee == None then "" else n.lessee.value)
  {
  }

  /** Which devices a run creates a node for, and which it passes over. */
  lemma PendingExactly(d: Device)
    ensures d.Pending() <==>
              && (d.uuid == None || d.uuid == Some("")) && d.managed
              && d.bmcAddress != None && d.bmcAddress != Some("") && d.bmcSecret != None && d.bmcSecret != Some("")
              && d.driver != None && d.driver != Some("") && d.resourceClass != None && d.resourceClass != Some("")
              && d.macs != {} && d.propertiesParse
    ensures d.Skipped() <==> (d.uuid == None || d.uuid == Some("")) && d.managed && !d.Pending()
  {
  }

  function Ports(ports: map<string, set<string>>, id: string): set<string> {
    if id in ports then ports[id] else {}
  }

  ghost function PortCount(ports: map<string, set<string>>): int {
    Total(map id | id in ports :: |ports[id]|)
  }

  predicate Mapped(devices: seq<Device>, id: string) {
    exists i | 0 <= i < |devices| :: devices[i].uuid == Some(id)
  }

  /** No two devices name the same node. */
  ghost predicate Injective(devices: seq<Device>) {
    forall i, j | 0 <= i < j < |devices| && Truthy(devices[i].uuid) :: devices[i].uuid != devices[j].uuid
  }

  // ---- one run, as a function of what Ironic answers ----

  /** What Ironic makes of the creation of a node. */
  datatype Answer = Answer(id: string, node: NodeRecord)

  function WithPorts(ports: map<string, set<string>>, id: string, macs: set<string>): map<string, set<string>> {
    if macs <= Ports(ports, id) then ports else ports[id := Ports(ports, id) + macs]
  }

  /** The pass over device `i`; `nodes` is the listing taken when the run began. */
  function Treat(s: Site, i: nat, nodes: map<string, NodeRecord>, a: Answer): Site
    requires i < |s.devices|
  {
    var d := s.devices[i];
    if d.On(nodes) then
      s.(devices := s.devices[i := d.(status := Mirror(nodes[d.uuid.value]))],
         ports := WithPorts(s.ports, d.uuid.value, d.macs))
    else if d.Pending() then
      Site(s.devices[i := d.(uuid := Some(a.id))], s.nodes[a.id := a.node], WithPorts(s.ports, a.id, d.macs))
    else s
  }

  function TreatFirst(s: Site, n: nat, answers: seq<Answer>): (t: Site)
    requires n <= |s.devices| && n <= |answers|
    ensures |t.devices| == |s.devices|
  {
    if n == 0 then s else Treat(TreatFirst(s, n - 1, answers), n - 1, s.nodes, answers[n - 1])
  }

  function NameFor(devices: seq<Device>, id: string, node: NodeRecord): string {
    var base := if Truthy(node.name) then node.name.value else "ironic-" + TakeFirst(id, 12);
    if exists i | 0 <= i < |devices| :: devices[i].name == base then base + "-" + TakeFirst(id, 8) else base
  }

  /** The device entered for a node that has none: without interfaces, and without the lessee field. */
  function Found(devices: seq<Device>, id: string, node: NodeRecord): Device {
    Device(NameFor(devices, id, node), Some(id), true, None, None, OrEmpty(node.driver), None, true,
           Mirror(node).(lessee := None), map[], {})
  }

  /** The device entered for a node: its name is the node's, or made of the uuid, and longer if that is taken. */
  lemma FoundExactly(devices: seq<Device>, id: string, node: NodeRecord)
    ensures var d := Found(devices, id, node);
            && d.uuid == Some(id) && d.managed && d.macs == {} && d.otherFields == map[]
            && d.bmcAddress == d.bmcSecret == d.resourceClass == None
            && d.driver == Some(if node.driver == None then "" else node.driver.value)
            && d.status.power == Some(if node.power == None then "" else node.power.value)
            && d.status.provision == Some(if node.provision == None then "" else node.provision.value)
            && d.status.maintenance == Some(node.maintenance)
            && d.status.lastError == Some(if node.lastError == None then "" else node.lastError.value)
            && d.status.lessee == None
    ensures var base := if node.name == None || node.name == Some("")
                        then "ironic-" + (if |id| <= 12 then id else id[..12]) else node.name.value;
            Found(devices, id, node).name
            == if exists i :: 0 <= i < |devices| && devices[i].name == base
               then base + "-" + (if |id| <= 8 then id else id[..8]) else base
  {
  }

  function Discover(devices: seq<Device>, nodes: map<string, NodeRecord>, order: seq<string>): seq<Device>
    requires forall id | id in order :: id in nodes
  {
    if order == [] then devices
    else
      var last := |order| - 1;
      var before := Discover(devices, nodes, order[..last]);
      before + [Found(before, order[last], nodes[order[last]])]
  }

  function RunOf(s: Site, answers: seq<Answer>, order: seq<string>): Site
    requires |answers| <= |s.devices| && forall id | id in order :: id in s.nodes
  {
    var t := TreatFirst(s, |answers|, answers);
    t.(devices := Discover(t.devices, s.nodes, order))
  }

  /** A uuid that neither system knows. */
  predicate New(s: Site, id: string) {
    id != "" && id !in s.nodes && !Mapped(s.devices, id)
  }

  /** The uuids of the nodes that the first `n` passes create are new at the time. */
  ghost predicate NewAnswers(s: Site, n: nat, answers: seq<Answer>)
    requires n <= |s.devices| && n <= |answers|
  {
    n > 0 ==>
      && NewAnswers(s, n - 1, answers)
      && (s.devices[n - 1].Pending() ==> New(TreatFirst(s, n - 1, answers), answers[n - 1].id))
  }

  /** `order` lists the nodes without a device. */
  ghost predicate Undiscovered(devices: seq<Device>, nodes: map<string, NodeRecord>, order: seq<string>) {
    Distinct(order) && forall id :: id in order <==> id in nodes && !Mapped(devices, id)
  }

  ghost predicate IsRun(s: Site, answers: seq<Answer>, order: seq<string>) {
    && |answers| == |s.devices| && "" !in s.nodes && NewAnswers(s, |s.devices|, answers)
    && Undiscovered(TreatFirst(s, |s.devices|, answers).devices, s.nodes, order)
  }

  // ---- what a run achieves ----

  function Count(devices: seq<Device>, p: Device -> bool): nat {
    if devices == [] then 0
    else
      var last := |devices| - 1;
      Count(devices[..last], p) + if p(devices[last]) then 1 else 0
  }

  function IsPending(): Device -> bool { (d: Device) => d.Pending() }
  function IsSkipped(): Device -> bool { (d: Device) => d.Skipped() }
  function IsOutdated(nodes: map<string, NodeRecord>): Device -> bool { (d: Device) => d.Outdated(nodes) }

  lemma CountNext(devices: seq<Device>, i: nat, p: Device -> bool)
    requires i < |devices|
    ensures Count(devices[..i + 1], p) == Count(devices[..i], p) + if p(devices[i]) then 1 else 0
  {
    assert devices[..i + 1][..i] == devices[..i];
  }

  lemma {:induction false} CountNone(devices: seq<Device>, p: Device -> bool)
    ensures Count(devices, p) == 0 <==> forall d | d in devices :: !p(d)
  {
    if devices != [] {
      var last := |devices| - 1;
      CountNone(devices[..last], p);
      assert devices == devices[..last] + [devices[last]];
    }
  }

  /** The numbers a run reports. */
  ghost predicate Reports(s: Site, s': Site, order: seq<string>, c: Counts) {
    && c.created == Count(s.devices, IsPending())
    && c.discovered == |order|
    && c.statusUpdates == Count(s.devices, IsOutdated(s.nodes))
    && c.portsCreated == PortCount(s'.ports) - PortCount(s.ports)
    && c.skipped == Count(s.devices, IsSkipped())
  }

  /** What becomes of a device. */
  ghost predicate Treated(d: Device, d': Device, nodes: map<string, NodeRecord>, after: Site) {
    if d.On(nodes) then
      d' == d.(status := Mirror(nodes[d.uuid.value])) && d.macs <= Ports(after.ports, d.uuid.value)
    else if d.Pending() then
      && Truthy(d'.uuid) && d' == d.(uuid := d'.uuid)
      && d'.uuid.value in after.nodes && d'.uuid.value !in nodes && d.macs <= Ports(after.ports, d'.uuid.value)
    else d' == d
  }

  /** Nodes and ports are only ever added. */
  ghost predicate Grows(s: Site, t: Site) {
    && (forall id | id in s.nodes :: id in t.nodes && t.nodes[id] == s.nodes[id])
    && (forall id :: Ports(s.ports, id) <= Ports(t.ports, id))
  }

  /** The effect of the pass over device `i`, told from the device. */
  ghost predicate Passes(s: Site, t: Site, i: nat, nodes: map<string, NodeRecord>)
    requires i < |s.devices|
  {
    && |t.devices| == |s.devices| && Grows(s, t) && Treated(s.devices[i], t.devices[i], nodes, t)
    && (forall j | 0 <= j < |s.devices| && j != i :: t.devices[j] == s.devices[j])
    && (Truthy(s.devices[i].uuid) ==> t.devices[i].uuid == s.devices[i].uuid)
    && if s.devices[i].Pending() then
         var id := t.devices[i].uuid;
         id.Some? && id.value !in s.nodes && !Mapped(s.devices, id.value) && t.nodes.Keys == s.nodes.Keys + {id.value}
       else t.nodes == s.nodes && t.devices[i].uuid == s.devices[i].uuid
  }

  lemma TreatPasses(s: Site, i: nat, nodes: map<string, NodeRecord>, a: Answer)
    requires i < |s.devices| && (s.devices[i].Pending() ==> New(s, a.id))
    requires forall id | id in nodes :: id in s.nodes
    ensures Passes(s, Treat(s, i, nodes, a), i, nodes)
  {
  }

  /** What the first `n` passes have done. */
  ghost predicate FirstTreated(s: Site, t: Site, n: nat)
    requires n <= |s.devices|
  {
    && |t.devices| == |s.devices| && Grows(s, t)
    && (forall j | 0 <= j < n :: Treated(s.devices[j], t.devices[j], s.nodes, t))
    && (forall j | n <= j < |s.devices| :: t.devices[j] == s.devices[j])
  }

  ghost predicate NodesAccounted(s: Site, t: Site, n: nat)
    requires n <= |s.devices|
  {
    && |t.nodes| == |s.nodes| + Count(s.devices[..n], IsPending())
    && (forall id | id in t.nodes && id !in s.nodes :: id != "" && Mapped(t.devices, id) && !Mapped(s.devices, id))
    && (Injective(s.devices) ==> Injective(t.devices))
  }

  lemma StillMapped(t: Site, t': Site, i: nat, nodes: map<string, NodeRecord>, id: string)
    requires i < |t.devices| && Passes(t, t', i, nodes) && id != ""
    requires Mapped(t.devices, id) || (id in t'.nodes && id !in t.nodes)
    ensures Mapped(t'.devices, id)
  {
    if Mapped(t.devices, id) {
      var j :| 0 <= j < |t.devices| && t.devices[j].uuid == Some(id);
      assert t'.devices[j].uuid == Some(id);
    } else {
      assert t'.devices[i].uuid == Some(id);
    }
  }

  lemma OneMoreTreated(s: Site, t: Site, t': Site, n: nat)
    requires n < |s.devices| && FirstTreated(s, t, n) && Passes(t, t', n, s.nodes)
    ensures FirstTreated(s, t', n + 1)
  {
    forall j | 0 <= j < n ensures Treated(s.devices[j], t'.devices[j], s.nodes, t') {
      assert Treated(s.devices[j], t.devices[j], s.nodes, t);
    }
  }

  lemma OneMoreAccounted(s: Site, t: Site, t': Site, n: nat)
    requires n < |s.devices| == |t.devices| && t.devices[n] == s.devices[n] && "" !in t'.nodes
    requires NodesAccounted(s, t, n) && Passes(t, t', n, s.nodes) && FirstTreated(s, t, n)
    ensures NodesAccounted(s, t', n + 1)
  {
    NewIsNotMapped(s, t, n);
    CountNext(s.devices, n, IsPending());
    assert |t'.nodes.Keys| == |t.nodes.Keys| + if s.devices[n].Pending() then 1 else 0;
    forall id | id in t'.nodes && id !in s.nodes ensures Mapped(t'.devices, id) {
      StillMapped(t, t', n, s.nodes, id);
    }
  }

  lemma NewIsNotMapped(s: Site, t: Site, n: nat)
    requires n <= |s.devices| && FirstTreated(s, t, n)
    ensures forall id | id != "" && !Mapped(t.devices, id) :: !Mapped(s.devices, id)
  {
    forall id | id != "" && Mapped(s.devices, id) ensures Mapped(t.devices, id) {
      var j :| 0 <= j < |s.devices| && s.devices[j].uuid == Some(id);
      assert j < n ==> Treated(s.devices[j], t.devices[j], s.nodes, t);
      assert t.devices[j].uuid == Some(id);
    }
  }

  lemma {:induction false} FirstAreTreated(s: Site, n: nat, answers: seq<Answer>)
    requires n <= |s.devices| && n <= |answers| && NewAnswers(s, n, answers) && "" !in s.nodes
    ensures FirstTreated(s, TreatFirst(s, n, answers), n) && NodesAccounted(s, TreatFirst(s, n, answers), n)
    ensures "" !in TreatFirst(s, n, answers).nodes
  {
    if n > 0 {
      FirstAreTreated(s, n - 1, answers);
      var t := TreatFirst(s, n - 1, answers);
      TreatPasses(t, n - 1, s.nodes, answers[n - 1]);
      OneMoreTreated(s, t, TreatFirst(s, n, answers), n - 1);
      OneMoreAccounted(s, t, TreatFirst(s, n, answers), n - 1);
    }
  }

  /** `found` is `devices` and then a device for each node of `order`. */
  ghost predicate Adds(devices: seq<Device>, nodes: map<string, NodeRecord>, order: seq<string>, found: seq<Device>) {
    && |found| == |devices| + |order|
    && (forall i | 0 <= i < |devices| :: found[i] == devices[i])
    && (forall i | 0 <= i < |order| ::
          var d := found[|devices| + i];
          order[i] in nodes && d.uuid == Some(order[i]) && d.status == Mirror(nodes[order[i]]).(lessee := None))
  }

  lemma {:induction false} DiscoverAdds(devices: seq<Device>, nodes: map<string, NodeRecord>, order: seq<string>)
    requires forall id | id in order :: id in nodes
    ensures Adds(devices, nodes, order, Discover(devices, nodes, order))
  {
    if order != [] {
      var last := |order| - 1;
      DiscoverAdds(devices, nodes, order[..last]);
      var before := Discover(devices, nodes, order[..last]);
      AddsOne(devices, nodes, order, before, Found(before, order[last], nodes[order[last]]));
    }
  }

  lemma AddsOne(devices: seq<Device>, nodes: map<string, NodeRecord>, order: seq<string>, before: seq<Device>,
                d: Device)
    requires order != [] && Adds(devices, nodes, order[..|order| - 1], before)
    requires var id := order[|order| - 1];
             id in nodes && d.uuid == Some(id) && d.status == Mirror(nodes[id]).(lessee := None)
    ensures Adds(devices, nodes, order, before + [d])
  {
    var last := |order| - 1;
    forall i | 0 <= i < last
      ensures (before + [d])[|devices| + i] == before[|devices| + i] && order[..last][i] == order[i]
    {
    }
  }

  lemma DiscoveryKeepsInjective(devices: seq<Device>, nodes: map<string, NodeRecord>, order: seq<string>,
                                found: seq<Device>)
    requires Injective(devices) && Undiscovered(devices, nodes, order) && Adds(devices, nodes, order, found)
    ensures Injective(found)
  {
    forall i, j | 0 <= i < j < |found| && Truthy(found[i].uuid) ensures found[i].uuid != found[j].uuid {
      if j >= |devices| {
        var id := order[j - |devices|];
        assert found[|devices| + (j - |devices|)].uuid == Some(id);
        assert id in order && !Mapped(devices, id);
        if i >= |devices| { assert found[|devices| + (i - |devices|)].uuid == Some(order[i - |devices|]); }
      }
    }
  }

  lemma AllMapped(s: Site, t: Site, order: seq<string>, found: seq<Device>)
    requires NodesAccounted(s, t, |s.devices|)
    requires Undiscovered(t.devices, s.nodes, order) && Adds(t.devices, s.nodes, order, found)
    ensures forall id | id in t.nodes :: Mapped(found, id)
  {
    var n := |t.devices|;
    forall id | id in t.nodes ensures Mapped(found, id) {
      if Mapped(t.devices, id) {
        var i :| 0 <= i < n && t.devices[i].uuid == Some(id);
        assert found[i].uuid == Some(id);
      } else {
        var i :| 0 <= i < |order| && order[i] == id;
        assert found[n + i].uuid == Some(id);
      }
    }
  }

  /** Nothing to create and nothing to discover. */
  ghost predicate Tidy(s: Site) {
    (forall id | id in s.nodes :: Mapped(s.devices, id)) && (forall d | d in s.devices :: !d.Pending())
  }

  lemma NonePending(s: Site, t: Site, order: seq<string>, found: seq<Device>)
    requires FirstTreated(s, t, |s.devices|) && "" !in s.nodes
    requires Undiscovered(t.devices, s.nodes, order) && Adds(t.devices, s.nodes, order, found)
    ensures forall d | d in found :: !d.Pending()
  {
    var n := |s.devices|;
    forall d | d in found ensures !d.Pending() {
      var i :| 0 <= i < |found| && found[i] == d;
      if i >= n {
        assert found[n + (i - n)].uuid == Some(order[i - n]) && order[i - n] in order;
      } else {
        assert found[i] == t.devices[i] && Treated(s.devices[i], t.devices[i], s.nodes, t);
      }
    }
  }

  lemma RunKeepsTreated(s: Site, t: Site, order: seq<string>, found: seq<Device>)
    requires FirstTreated(s, t, |s.devices|) && NodesAccounted(s, t, |s.devices|)
    requires Adds(t.devices, s.nodes, order, found)
    ensures var s' := t.(devices := found);
            && Grows(s, s') && |s'.nodes| == |s.nodes| + Count(s.devices, IsPending())
            && |s'.devices| == |s.devices| + |order|
            && (forall i | 0 <= i < |s.devices| :: Treated(s.devices[i], s'.devices[i], s.nodes, s'))
  {
    assert s.devices[..|s.devices|] == s.devices;
  }

  lemma RunAchievesFor(s: Site, t: Site, order: seq<string>, found: seq<Device>)
    requires FirstTreated(s, t, |s.devices|) && NodesAccounted(s, t, |s.devices|) && "" !in s.nodes
    requires Undiscovered(t.devices, s.nodes, order) && Adds(t.devices, s.nodes, order, found)
    ensures var s' := t.(devices := found);
            && Grows(s, s') && Tidy(s')
            && |s'.nodes| == |s.nodes| + Count(s.devices, IsPending())
            && |s'.devices| == |s.devices| + |order|
            && (forall i | 0 <= i < |s.devices| :: Treated(s.devices[i], s'.devices[i], s.nodes, s'))
            && (Injective(s.devices) ==> Injective(s'.devices))
  {
    AllMapped(s, t, order, found);
    NonePending(s, t, order, found);
    RunKeepsTreated(s, t, order, found);
    if Injective(s.devices) { DiscoveryKeepsInjective(t.devices, s.nodes, order, found); }
  }

  /** After a run every node has a device, nothing is left to create, and devices and nodes have grown
      by what the run reports; a one-to-one mapping stays one-to-one. */
  lemma RunAchieves(s: Site, answers: seq<Answer>, order: seq<string>)
    requires IsRun(s, answers, order)
    ensures var s' := RunOf(s, answers, order);
            forall i | 0 <= i < |s'.devices| && s'.devices[i].uuid.Some? && s'.devices[i].uuid.value in s.nodes ::
              ShowsNode(s'.devices[i], s.nodes[s'.devices[i].uuid.value], i < |s.devices|)
    ensures var s' := RunOf(s, answers, order);
            && Grows(s, s') && Tidy(s')
            && |s'.nodes| == |s.nodes| + Count(s.devices, IsPending())
            && |s'.devices| == |s.devices| + |order|
            && (forall i | 0 <= i < |s.devices| :: Treated(s.devices[i], s'.devices[i], s.nodes, s'))
            && (Injective(s.devices) ==> Injective(s'.devices))
  {
    var n := |s.devices|;
    var t := TreatFirst(s, n, answers);
    var found := Discover(t.devices, s.nodes, order);
    FirstAreTreated(s, n, answers);
    DiscoverAdds(t.devices, s.nodes, order);
    RunAchievesFor(s, t, order, found);
    AllShowTheirNodes(s, t, order, found);
  }

  /** A device after a run shows what the node says, field by field; one just discovered has no lessee field yet. */
  predicate ShowsNode(d: Device, n: NodeRecord, known: bool) {
    && d.status.power == Some(if n.power == None then "" else n.power.value)
    && d.status.provision == Some(if n.provision == None then "" else n.provision.value)
    && d.status.maintenance == Some(n.maintenance)
    && d.status.lastError == Some(if n.lastError == None then "" else n.lastError.value)
    && d.status.lessee == if !known then None else Some(if n.lessee == None then "" else n.lessee.value)
  }

  lemma TreatedShows(d: Device, d': Device, nodes: map<string, NodeRecord>, after: Site)
    requires Treated(d, d', nodes, after) && "" !in nodes && d'.uuid.Some? && d'.uuid.value in nodes
    ensures ShowsNode(d', nodes[d'.uuid.value], true)
  {
    MirrorExactly(nodes[d'.uuid.value]);
  }

  lemma AllShowTheirNodes(s: Site, t: Site, order: seq<string>, found: seq<Device>)
    requires FirstTreated(s, t, |s.devices|) && "" !in s.nodes && Adds(t.devices, s.nodes, order, found)
    ensures forall i | 0 <= i < |found| && found[i].uuid.Some? && found[i].uuid.value in s.nodes ::
              ShowsNode(found[i], s.nodes[found[i].uuid.value], i < |s.devices|)
  {
    var n := |s.devices|;
    forall i | 0 <= i < |found| && found[i].uuid.Some? && found[i].uuid.value in s.nodes
      ensures ShowsNode(found[i], s.nodes[found[i].uuid.value], i < n)
    {
      if i < n {
        TreatedShows(s.devices[i], t.devices[i], s.nodes, t);
      } else {
        FoundShows(t.devices, s.nodes, order, found, i - n);
      }
    }
  }

  lemma FoundShows(devices: seq<Device>, nodes: map<string, NodeRecord>, order: seq<string>, found: seq<Device>, i: nat)
    requires Adds(devices, nodes, order, found) && i < |order|
    ensures order[i] in nodes && found[|devices| + i].uuid == Some(order[i])
    ensures ShowsNode(found[|devices| + i], nodes[order[i]], false)
  {
    MirrorExactly(nodes[order[i]]);
  }

  // ---- the fixed point ----

  /** Besides, every device on a node mirrors it and has its interfaces as ports. */
  ghost predicate Settled(s: Site) {
    && Tidy(s)
    && forall d | d in s.devices && d.On(s.nodes) ::
         d.status == Mirror(s.nodes[d.uuid.value]) && d.macs <= Ports(s.ports, d.uuid.value)
  }

  lemma TreatIdle(s: Site, i: nat, nodes: map<string, NodeRecord>, a: Answer)
    requires i < |s.devices| && !s.devices[i].Pending()
    ensures Treat(s, i, nodes, a).nodes == s.nodes
    ensures forall j | 0 <= j < |s.devices| :: Treat(s, i, nodes, a).devices[j].uuid == s.devices[j].uuid
  {
  }

  lemma {:induction false} NothingCreated(s: Site, n: nat, answers: seq<Answer>)
    requires n <= |s.devices| && n <= |answers| && Tidy(s) && NewAnswers(s, n, answers) && "" !in s.nodes
    ensures TreatFirst(s, n, answers).nodes == s.nodes
    ensures forall j | 0 <= j < |s.devices| :: TreatFirst(s, n, answers).devices[j].uuid == s.devices[j].uuid
  {
    if n > 0 {
      NothingCreated(s, n - 1, answers);
      FirstAreTreated(s, n - 1, answers);
      assert s.devices[n - 1] in s.devices;
      TreatIdle(TreatFirst(s, n - 1, answers), n - 1, s.nodes, answers[n - 1]);
    }
  }

  lemma NothingToDiscover(devices: seq<Device>, devices': seq<Device>, nodes: map<string, NodeRecord>,
                          order: seq<string>)
    requires |devices'| == |devices| && forall j | 0 <= j < |devices| :: devices'[j].uuid == devices[j].uuid
    requires (forall id | id in nodes :: Mapped(devices, id)) && Undiscovered(devices', nodes, order)
    ensures order == []
  {
    forall id | id in nodes ensures Mapped(devices', id) {
      var i :| 0 <= i < |devices| && devices[i].uuid == Some(id);
      assert devices'[i].uuid == Some(id);
    }
    Order.HeadIsMember(order);
  }

  /** On a tidy site a run creates and discovers nothing, and settles it. */
  lemma TidyRunSettles(s: Site, answers: seq<Answer>, order: seq<string>)
    requires IsRun(s, answers, order) && Tidy(s)
    ensures order == [] && Settled(RunOf(s, answers, order))
    ensures var s' := RunOf(s, answers, order);
            forall i | 0 <= i < |s'.devices| && s'.devices[i].uuid.Some? && s'.devices[i].uuid.value in s.nodes ::
              ShowsNode(s'.devices[i], s.nodes[s'.devices[i].uuid.value], true)
    ensures RunOf(s, answers, order).nodes == s.nodes && |RunOf(s, answers, order).devices| == |s.devices|
  {
    NothingCreated(s, |s.devices|, answers);
    NothingToDiscover(s.devices, TreatFirst(s, |s.devices|, answers).devices, s.nodes, order);
    RunAchieves(s, answers, order);
    AllTreatedIsSettled(s, RunOf(s, answers, order));
  }

  lemma AllTreatedIsSettled(s: Site, s': Site)
    requires Tidy(s) && Tidy(s') && s'.nodes == s.nodes && |s'.devices| == |s.devices|
    requires forall i | 0 <= i < |s.devices| :: Treated(s.devices[i], s'.devices[i], s.nodes, s')
    ensures Settled(s')
  {
    forall d | d in s'.devices && d.On(s'.nodes)
      ensures d.status == Mirror(s'.nodes[d.uuid.value]) && d.macs <= Ports(s'.ports, d.uuid.value)
    {
      var i :| 0 <= i < |s'.devices| && s'.devices[i] == d;
      assert s.devices[i] in s.devices && Treated(s.devices[i], d, s.nodes, s');
    }
  }

  lemma TreatSettled(s: Site, i: nat, a: Answer)
    requires Settled(s) && i < |s.devices|
    ensures Treat(s, i, s.nodes, a) == s
  {
    var d := s.devices[i];
    assert d in s.devices;
    if d.On(s.nodes) { assert s.devices[i := d] == s.devices; }
  }

  lemma {:induction false} SettledStays(s: Site, n: nat, answers: seq<Answer>)
    requires n <= |s.devices| && n <= |answers| && Settled(s)
    ensures TreatFirst(s, n, answers) == s
  {
    if n > 0 {
      SettledStays(s, n - 1, answers);
      TreatSettled(s, n - 1, answers[n - 1]);
    }
  }

  /** A run over a settled site changes nothing and reports nothing but the devices it skips. */
  lemma SettledRunChangesNothing(s: Site, answers: seq<Answer>, order: seq<string>, c: Counts)
    requires IsRun(s, answers, order) && Settled(s) && Reports(s, RunOf(s, answers, order), order, c)
    ensures RunOf(s, answers, order) == s
    ensures c.created == c.discovered == c.statusUpdates == c.portsCreated == 0
  {
    SettledStays(s, |s.devices|, answers);
    NothingToDiscover(s.devices, s.devices, s.nodes, order);
    CountNone(s.devices, IsPending());
    CountNone(s.devices, IsOutdated(s.nodes));
  }

  /** Two completed runs reach a fixed point: the third makes no patch, node, port or device. */
  lemma TwoRunsSettle(s: Site, answers1: seq<Answer>, order1: seq<string>, answers2: seq<Answer>, order2: seq<string>,
                      answers3: seq<Answer>, order3: seq<string>, c: Counts)
    requires IsRun(s, answers1, order1)
    requires var s1 := RunOf(s, answers1, order1);
             && IsRun(s1, answers2, order2)
             && var s2 := RunOf(s1, answers2, order2);
             IsRun(s2, answers3, order3) && Reports(s2, RunOf(s2, answers3, order3), order3, c)
    ensures var s1 := RunOf(s, answers1, order1);
            var s2 := RunOf(s1, answers2, order2);
            && Settled(s2) && s2.nodes == s1.nodes && |s2.devices| == |s1.devices|
            && RunOf(s2, answers3, order3) == s2
            && c.created == c.discovered == c.statusUpdates == c.portsCreated == 0
  {
    var s1 := RunOf(s, answers1, order1);
    RunAchieves(s, answers1, order1);
    TidyRunSettles(s1, answers2, order2);
    SettledRunChangesNothing(RunOf(s1, answers2, order2), answers3, order3, c);
  }

  lemma FoundIsOutdated(devices: seq<Device>, nodes: map<string, NodeRecord>, order: seq<string>, found: seq<Device>)
    requires Adds(devices, nodes, order, found) && "" !in nodes && order != []
    ensures exists d :: d in found && d.Outdated(nodes)
  {
    var d := found[|devices| + 0];
    assert d in found && d.uuid == Some(order[0]) && d.Outdated(nodes);
  }

  /** A created node is the one that Ironic answered with, and stays so to the end of the run. */
  ghost predicate AnswersLanded(s: Site, t: Site, n: nat, answers: seq<Answer>)
    requires n <= |s.devices| && n <= |answers|
  {
    && |t.devices| == |s.devices|
    && forall j | 0 <= j < n && s.devices[j].Pending() ::
         && t.devices[j].uuid == Some(answers[j].id)
         && answers[j].id in t.nodes && t.nodes[answers[j].id] == answers[j].node
  }

  lemma {:induction false} AnswersLand(s: Site, n: nat, answers: seq<Answer>)
    requires n <= |s.devices| && n <= |answers| && NewAnswers(s, n, answers) && "" !in s.nodes
    ensures AnswersLanded(s, TreatFirst(s, n, answers), n, answers)
  {
    if n > 0 {
      AnswersLand(s, n - 1, answers);
      FirstAreTreated(s, n - 1, answers);
      NextAnswerLands(s, TreatFirst(s, n - 1, answers), n - 1, answers);
    }
  }

  lemma AnswerLands(s: Site, i: nat, nodes: map<string, NodeRecord>, a: Answer)
    requires i < |s.devices| && s.devices[i].Pending()
    ensures var t := Treat(s, i, nodes, a);
            t.devices[i].uuid == Some(a.id) && a.id in t.nodes && t.nodes[a.id] == a.node
  {
  }

  lemma NextAnswerLands(s: Site, t: Site, n: nat, answers: seq<Answer>)
    requires n < |s.devices| && n < |answers| && AnswersLanded(s, t, n, answers) && FirstTreated(s, t, n)
    requires s.devices[n].Pending() ==> New(t, answers[n].id)
    ensures AnswersLanded(s, Treat(t, n, s.nodes, answers[n]), n + 1, answers)
  {
    TreatPasses(t, n, s.nodes, answers[n]);
    if s.devices[n].Pending() { AnswerLands(t, n, s.nodes, answers[n]); }
    OneMoreLanded(s, t, Treat(t, n, s.nodes, answers[n]), n, answers);
  }

  lemma OneMoreLanded(s: Site, t: Site, t': Site, n: nat, answers: seq<Answer>)
    requires n < |s.devices| && n < |answers| && AnswersLanded(s, t, n, answers) && Passes(t, t', n, s.nodes)
    requires s.devices[n].Pending() ==>
               t'.devices[n].uuid == Some(answers[n].id) && answers[n].id in t'.nodes
               && t'.nodes[answers[n].id] == answers[n].node
    ensures AnswersLanded(s, t', n + 1, answers)
  {
  }

  /** Treating the devices maps no node of the listing that had no device. */
  lemma StillUnmapped(s: Site, t: Site)
    requires FirstTreated(s, t, |s.devices|)
    ensures forall id | id in s.nodes && Mapped(t.devices, id) :: Mapped(s.devices, id)
  {
    forall id | id in s.nodes && Mapped(t.devices, id) ensures Mapped(s.devices, id) {
      var j :| 0 <= j < |t.devices| && t.devices[j].uuid == Some(id);
      assert Treated(s.devices[j], t.devices[j], s.nodes, t);
      assert s.devices[j].uuid == Some(id);
    }
  }

  /** Nothing is discovered exactly when every node has a device from the start. */
  lemma DiscoversNothingExactly(s: Site, t: Site, order: seq<string>)
    requires FirstTreated(s, t, |s.devices|) && Undiscovered(t.devices, s.nodes, order) && "" !in s.nodes
    ensures order == [] <==> forall id | id in s.nodes :: Mapped(s.devices, id)
  {
    StillUnmapped(s, t);
    NewIsNotMapped(s, t, |s.devices|);
    Order.HeadIsMember(order);
  }

  /** The site is ready to be settled by one run: every node has a device, and every device that a node is created
      for mirrors already the node that Ironic answers with. */
  ghost predicate OneRunIsEnough(s: Site, answers: seq<Answer>)
    requires |answers| == |s.devices|
  {
    && (forall id | id in s.nodes :: Mapped(s.devices, id))
    && (forall i | 0 <= i < |s.devices| && s.devices[i].Pending() :: s.devices[i].status == Mirror(answers[i].node))
  }

  /** One run settles the site exactly when it was ready, which can be told from the site and Ironic's answers. */
  lemma OneRunSettles(s: Site, answers: seq<Answer>, order: seq<string>)
    requires IsRun(s, answers, order)
    ensures Settled(RunOf(s, answers, order)) <==> OneRunIsEnough(s, answers)
  {
    var t := TreatFirst(s, |s.devices|, answers);
    FirstAreTreated(s, |s.devices|, answers);
    AnswersLand(s, |s.devices|, answers);
    DiscoversNothingExactly(s, t, order);
    RunAchieves(s, answers, order);
    DiscoverAdds(t.devices, s.nodes, order);
    if order != [] {
      FoundIsOutdated(t.devices, s.nodes, order, RunOf(s, answers, order).devices);
    } else {
      CreatedSettles(s, RunOf(s, answers, order), answers);
    }
  }

  lemma CreatedSettles(s: Site, s': Site, answers: seq<Answer>)
    requires Grows(s, s') && Tidy(s') && |s'.devices| == |s.devices| == |answers|
    requires forall i | 0 <= i < |s.devices| :: Treated(s.devices[i], s'.devices[i], s.nodes, s')
    requires forall id | id in s'.nodes && id !in s.nodes :: !Mapped(s.devices, id)
    requires AnswersLanded(s, s', |s.devices|, answers)
    ensures Settled(s') <==> forall i | 0 <= i < |s.devices| && s.devices[i].Pending() ::
              s.devices[i].status == Mirror(answers[i].node)
  {
    if forall i | 0 <= i < |s.devices| && s.devices[i].Pending() :: s.devices[i].status == Mirror(answers[i].node) {
      forall d | d in s'.devices && d.On(s'.nodes)
        ensures d.status == Mirror(s'.nodes[d.uuid.value]) && d.macs <= Ports(s'.ports, d.uuid.value)
      {
        var i :| 0 <= i < |s'.devices| && s'.devices[i] == d;
        assert Treated(s.devices[i], d, s.nodes, s');
      }
    } else {
      var i :| 0 <= i < |s.devices| && s.devices[i].Pending() && s.devices[i].status != Mirror(answers[i].node);
      assert s'.devices[i] in s'.devices && Treated(s.devices[i], s'.devices[i], s.nodes, s');
    }
  }

  // ---- the controller ----

  class NetBox {
    var devices: seq<Device>
  }

  /** A request to create a node; the keys of its driver info begin with `prefix`. */
  datatype NodeOrder = NodeOrder(name: string, driver: string, resourceClass: string,
                                 prefix: string, address: string, secret: string)

  class IronicApi {
    var nodes: map<string, NodeRecord>
    var ports: map<string, set<string>>
    /** The creations asked for so far. */
    var orders: seq<NodeOrder>
  }

  const REDFISH := "redfish"

  function OrderFor(d: Device): NodeOrder
    requires d.Pending()
  {
    NodeOrder(d.name, d.driver.value, d.resourceClass.value, if REDFISH <= d.driver.value then REDFISH else "ipmi",
              d.bmcAddress.value, d.bmcSecret.value)
  }

  /** The creations asked for by the passes over the devices. */
  function OrdersFor(devices: seq<Device>): seq<NodeOrder> {
    if devices == [] then []
    else
      var last := |devices| - 1;
      OrdersFor(devices[..last]) + if devices[last].Pending() then [OrderFor(devices[last])] else []
  }

  /** The orders so far, after the passes over the first `i` devices. */
  predicate Ordered(before: seq<NodeOrder>, orders: seq<NodeOrder>, devices: seq<Device>, i: nat) {
    i <= |devices| && orders == before + OrdersFor(devices[..i])
  }

  lemma OrdersNext(before: seq<NodeOrder>, orders: seq<NodeOrder>, orders': seq<NodeOrder>, devices: seq<Device>,
                   i: nat)
    requires i < |devices| && Ordered(before, orders, devices, i)
    requires orders' == orders + if devices[i].Pending() then [OrderFor(devices[i])] else []
    ensures Ordered(before, orders', devices, i + 1)
  {
    assert devices[..i + 1][..i] == devices[..i];
  }

  lemma OrdersDone(before: seq<NodeOrder>, orders: seq<NodeOrder>, devices: seq<Device>)
    requires Ordered(before, orders, devices, |devices|)
    ensures orders == before + OrdersFor(devices)
  {
    assert devices[..|devices|] == devices;
  }

  lemma {:induction false} AnswersAppend(s: Site, n: nat, answers: seq<Answer>, a: Answer)
    requires n <= |s.devices| && n <= |answers|
    ensures TreatFirst(s, n, answers + [a]) == TreatFirst(s, n, answers)
    ensures NewAnswers(s, n, answers + [a]) == NewAnswers(s, n, answers)
  {
    if n > 0 { AnswersAppend(s, n - 1, answers, a); }
  }

  lemma OnePortMore(ports: map<string, set<string>>, id: string, mac: string)
    requires mac !in Ports(ports, id)
    ensures PortCount(ports[id := Ports(ports, id) + {mac}]) == PortCount(ports) + 1
  {
    var more := ports[id := Ports(ports, id) + {mac}];
    var sizes := map k | k in ports :: |ports[k]|;
    TotalUpdate(sizes, id, |Ports(ports, id)| + 1);
    assert (map k | k in more :: |more[k]|) == sizes[id := |Ports(ports, id)| + 1];
  }

  /** The addresses still missing, and those a node has. */
  predicate Parted(macs: set<string>, missing: set<string>, have: set<string>, existing: set<string>) {
    missing !! have && missing !! existing && missing + have == macs
  }

  lemma PortsOfAll(before: map<string, set<string>>, id: string, have: set<string>)
    ensures forall k :: Ports(WithPorts(before, id, have), k) == Ports(before, k) + if k == id then have else {}
    ensures id in WithPorts(before, id, have) || have == {}
  {
    PortsWith(before, id, have);
    forall k ensures Ports(WithPorts(before, id, have), k) == Ports(before, k) + if k == id then have else {} {
      if k != id { assert Ports(WithPorts(before, id, have), k) == Ports(before, k); }
    }
  }

  lemma PartOneMore(macs: set<string>, missing: set<string>, have: set<string>, existing: set<string>, mac: string)
    requires mac in missing && Parted(macs, missing, have, existing)
    ensures Parted(macs, missing - {mac}, have + {mac}, existing) && mac !in have && mac !in existing
  {
  }

  lemma PortsWith(before: map<string, set<string>>, id: string, have: set<string>)
    ensures Ports(WithPorts(before, id, have), id) == Ports(before, id) + have
  {
  }

  lemma WithOneMore(before: map<string, set<string>>, id: string, have: set<string>, mac: string)
    requires mac !in have && mac !in Ports(before, id)
    ensures var ports := WithPorts(before, id, have);
            ports[id := Ports(ports, id) + {mac}] == WithPorts(before, id, have + {mac})
  {
    PortsWith(before, id, have);
    assert mac in have + {mac};
    assert Ports(before, id) + have + {mac} == Ports(before, id) + (have + {mac});
  }

  lemma WithOneMoreCounts(before: map<string, set<string>>, id: string, have: set<string>, mac: string)
    requires mac !in have && mac !in Ports(before, id)
    ensures var ports := WithPorts(before, id, have);
            PortCount(ports[id := Ports(ports, id) + {mac}]) == PortCount(ports) + 1
  {
    PortsWith(before, id, have);
    OnePortMore(WithPorts(before, id, have), id, mac);
  }

  /** Which nodes the run has met among the devices passed so far. */
  ghost predicate Meets(mapped: map<string, Device>, devices: seq<Device>) {
    forall id :: id in mapped <==> id != "" && Mapped(devices, id)
  }

  lemma MeetsOneMore(mapped: map<string, Device>, t: Site, t': Site, i: nat, nodes: map<string, NodeRecord>, d: Device)
    requires i < |t.devices| && Meets(mapped, t.devices[..i]) && Passes(t, t', i, nodes)
    ensures Meets(MapDevice(mapped, t'.devices[i].uuid, d), t'.devices[..i + 1])
  {
    var uuid, before, met := t'.devices[i].uuid, t.devices[..i], t'.devices[..i + 1];
    assert met == before + [t'.devices[i]];
    forall id ensures Mapped(met, id) <==> Mapped(before, id) || uuid == Some(id) {
      if Mapped(before, id) {
        var j :| 0 <= j < i && before[j].uuid == Some(id);
        assert met[j].uuid == Some(id);
      }
      if uuid == Some(id) { assert met[i].uuid == Some(id); }
    }
  }

  /** The counters after `n` passes. */
  ghost predicate CountedFirst(s: Site, t: Site, n: nat, c: Counts)
    requires n <= |s.devices|
  {
    && c.created == Count(s.devices[..n], IsPending())
    && c.discovered == 0
    && c.statusUpdates == Count(s.devices[..n], IsOutdated(s.nodes))
    && c.portsCreated == PortCount(t.ports) - PortCount(s.ports)
    && c.skipped == Count(s.devices[..n], IsSkipped())
  }

  /** What the pass over `d`, from `t` to `t'`, adds to the counters. */
  ghost predicate Adding(c: Counts, c': Counts, d: Device, nodes: map<string, NodeRecord>, t: Site, t': Site) {
    && c' == Counts(c.created + (if d.Pending() then 1 else 0), c.discovered,
                    c.statusUpdates + (if d.Outdated(nodes) then 1 else 0),
                    c'.portsCreated, c.skipped + (if d.Skipped() then 1 else 0))
    && c'.portsCreated - c.portsCreated == PortCount(t'.ports) - PortCount(t.ports)
  }

  lemma CountedOneMore(s: Site, t: Site, t': Site, n: nat, c: Counts, c': Counts)
    requires n < |s.devices| && CountedFirst(s, t, n, c)
    requires Adding(c, c', s.devices[n], s.nodes, t, t')
    ensures CountedFirst(s, t', n + 1, c')
  {
    CountNext(s.devices, n, IsPending());
    CountNext(s.devices, n, IsOutdated(s.nodes));
    CountNext(s.devices, n, IsSkipped());
  }

  /** Where the passes have come to. */
  ghost predicate Passed(s: Site, t: Site, i: nat, answers: seq<Answer>, mapped: map<string, Device>, c: Counts) {
    && i <= |s.devices| && |answers| == i && NewAnswers(s, i, answers) && t == TreatFirst(s, i, answers)
    && Meets(mapped, t.devices[..i]) && CountedFirst(s, t, i, c)
  }

  function MapDevice(mapped: map<string, Device>, uuid: Option<string>, d: Device): map<string, Device> {
    if Truthy(uuid) then mapped[uuid.value := d] else mapped
  }

  lemma OnePassMore(s: Site, t: Site, t': Site, i: nat, answers: seq<Answer>, a: Answer,
                    mapped: map<string, Device>, d: Device, c: Counts, c': Counts)
    requires Passed(s, t, i, answers, mapped, c) && i < |s.devices| && "" !in s.nodes
    requires t.devices[i].Pending() ==> New(t, a.id)
    requires t' == Treat(t, i, s.nodes, a) && Adding(c, c', t.devices[i], s.nodes, t, t')
    ensures Passed(s, t', i + 1, answers + [a], MapDevice(mapped, t'.devices[i].uuid, d), c')
  {
    FirstAreTreated(s, i, answers);
    AnswersAppend(s, i, answers, a);
    TreatPasses(t, i, s.nodes, a);
    MeetsOneMore(mapped, t, t', i, s.nodes, d);
    CountedOneMore(s, t, t', i, c, c');
  }

  lemma PassedNext(s: Site, t: Site, i: nat, answers: seq<Answer>, mapped: map<string, Device>, c: Counts)
    requires Passed(s, t, i, answers, mapped, c) && i < |s.devices| && "" !in s.nodes
    ensures i < |t.devices| && t.devices[i] == s.devices[i]
  {
    FirstAreTreated(s, i, answers);
  }

  lemma AllPassed(s: Site, t: Site, answers: seq<Answer>, mapped: map<string, Device>, c: Counts)
    requires Passed(s, t, |s.devices|, answers, mapped, c)
    ensures |t.devices| == |s.devices| && Meets(mapped, t.devices) && c.discovered == 0 && Reports(s, t, [], c)
  {
    assert s.devices[..|s.devices|] == s.devices && t.devices[..|s.devices|] == t.devices;
  }

  /** `order` lists those of the nodes gone through that the passes have not met. */
  ghost predicate Visited(order: seq<string>, gone: set<string>, met: set<string>) {
    Distinct(order) && forall id :: id in order <==> id in gone && id !in met
  }

  lemma VisitedNext(order: seq<string>, gone: set<string>, met: set<string>, id: string)
    requires Visited(order, gone, met) && id !in gone
    ensures Visited(if id in met then order else order + [id], gone + {id}, met)
  {
  }

  class Controller {
    const netbox: NetBox
    const ironic: IronicApi
    /** The BMC secrets that can be read, and whether NetBox has the type, site and role for found devices. */
    const secrets: set<string>
    const catalogue: bool

    constructor (netbox: NetBox, ironic: IronicApi, secrets: set<string>, catalogue: bool)
      ensures this.netbox == netbox && this.ironic == ironic
    {
      this.netbox, this.ironic, this.secrets, this.catalogue := netbox, ironic, secrets, catalogue;
    }

    function Now(): Site
      reads netbox, ironic
    {
      Site(netbox.devices, ironic.nodes, ironic.ports)
    }

    /** `_sync_ports` */
    method SyncPorts(macs: set<string>, id: string) returns (created: nat)
      modifies ironic
      ensures ironic.nodes == old(ironic.nodes) && ironic.ports == WithPorts(old(ironic.ports), id, macs)
      ensures PortCount(ironic.ports) == PortCount(old(ironic.ports)) + created
      ensures ironic.orders == old(ironic.orders)
      ensures id in ironic.ports || macs == {}
      ensures forall k :: Ports(ironic.ports, k) == Ports(old(ironic.ports), k) + if k == id then macs else {}
    {
      ghost var before := ironic.ports;
      var missing := macs - Ports(ironic.ports, id);
      ghost var have := macs * Ports(before, id);
      created := 0;
      while missing != {}
        invariant Parted(macs, missing, have, Ports(before, id))
        invariant ironic.nodes == old(ironic.nodes) && ironic.ports == WithPorts(before, id, have)
        invariant ironic.orders == old(ironic.orders)
        invariant PortCount(ironic.ports) == PortCount(before) + created
        decreases |missing|
      {
        var mac :| mac in missing;
        PartOneMore(macs, missing, have, Ports(before, id), mac);
        WithOneMore(before, id, have, mac);
        WithOneMoreCounts(before, id, have, mac);
        ironic.ports := ironic.ports[id := Ports(ironic.ports, id) + {mac}];
        created := created + 1;
        missing, have := missing - {mac}, have + {mac};
      }
      PortsOfAll(before, id, macs);
    }

    /** A device that names a node: mirror the node if Ironic has it. */
    method PassKnown(i: nat, nodes: map<string, NodeRecord>, result: Counts, ghost a: Answer) returns (result': Counts)
      requires i < |netbox.devices| && Truthy(netbox.devices[i].uuid)
      modifies netbox, ironic
      ensures Now() == Treat(old(Now()), i, nodes, a) && ironic.orders == old(ironic.orders)
      ensures |netbox.devices| == |old(netbox.devices)|
      ensures var d, d' := old(netbox.devices)[i], netbox.devices[i];
              if d.uuid.value in nodes
              then d' == d.(status := d'.status) && ShowsNode(d', nodes[d.uuid.value], true)
                   && d.macs <= Ports(ironic.ports, d.uuid.value)
              else Now() == old(Now())
      ensures result' == result.(
                statusUpdates := result.statusUpdates + if old(netbox.devices[i]).Outdated(nodes) then 1 else 0,
                portsCreated := result'.portsCreated)
      ensures result'.portsCreated - result.portsCreated == PortCount(ironic.ports) - PortCount(old(ironic.ports))
    {
      var d := netbox.devices[i];
      var id := d.uuid.value;
      result' := result;
      if id !in nodes { return; }
      MirrorExactly(nodes[id]);
      var status := Mirror(nodes[id]);
      if status != d.status {
        netbox.devices := netbox.devices[i := d.(status := status)];
        result' := result'.(statusUpdates := result'.statusUpdates + 1);
      } else {
        assert netbox.devices[i := d.(status := status)] == netbox.devices;
      }
      var created := SyncPorts(d.macs, id);
      result' := result'.(portsCreated := result'.portsCreated + created);
    }

    /** The BMC secret of this device is asked for, and it cannot be read. */
    predicate LacksSecret(d: Device) {
      && (d.uuid == None || d.uuid == Some("")) && d.managed && d.Complete() && d.macs != {}
      && d.bmcSecret.value !in secrets
    }

    /** No secret that the passes over the first `i` devices ask for is missing. */
    predicate Readable(devices: seq<Device>, i: nat) {
      i <= |devices| && forall j | 0 <= j < i :: !LacksSecret(devices[j])
    }

    lemma ReadableNext(devices: seq<Device>, i: nat)
      requires Readable(devices, i) && i < |devices| && !LacksSecret(devices[i])
      ensures Readable(devices, i + 1)
    {
    }

    lemma ReadableDone(devices: seq<Device>)
      requires Readable(devices, |devices|)
      ensures forall d | d in devices :: !LacksSecret(d)
    {
    }

    /** Why a pass stops the run: a secret cannot be read, or Ironic answers with a uuid that is not new. */
    predicate Refuses(d: Device, s: Site, a: Answer, error: Error) {
      if LacksSecret(d) then error == RuntimeError("") else error == IntegrityError && d.Pending() && !New(s, a.id)
    }

    /** A device without a node: create one if it says enough. */
    method PassUnknown(i: nat, nodes: map<string, NodeRecord>, result: Counts)
      returns (outcome: Result<Counts>, ghost a: Answer)
      requires i < |netbox.devices| && !Truthy(netbox.devices[i].uuid)
      modifies netbox, ironic
      ensures outcome.Ok? ==> Now() == Treat(old(Now()), i, nodes, a)
      ensures outcome.Ok? && old(netbox.devices[i]).Pending() ==> New(old(Now()), a.id)
      ensures outcome.Ok? ==> !LacksSecret(old(netbox.devices[i]))
      ensures outcome.Ok? ==>
                && outcome.value == result.(
                     created := result.created + if old(netbox.devices[i]).Pending() then 1 else 0,
                     skipped := result.skipped + if old(netbox.devices[i]).Skipped() then 1 else 0,
                     portsCreated := outcome.value.portsCreated)
                && outcome.value.portsCreated - result.portsCreated
                  == PortCount(ironic.ports) - PortCount(old(ironic.ports))
      ensures outcome.Err? ==> Now() == old(Now())
      ensures outcome.Ok? ==>
                var d := old(netbox.devices)[i];
                && ironic.orders == old(ironic.orders) + (if d.Pending() then [OrderFor(d)] else [])
                && (d.Pending() ==>
                      ironic.orders[|old(ironic.orders)|] == NodeOrder(
                        d.name, d.driver.value, d.resourceClass.value,
                        if "redfish" <= d.driver.value then "redfish" else "ipmi",
                        d.bmcAddress.value, d.bmcSecret.value))
      ensures outcome.Err? ==> Refuses(old(netbox.devices)[i], old(Now()), a, outcome.error)
    {
      PendingExactly(netbox.devices[i]);
      var d := netbox.devices[i];
      var id: string, node: NodeRecord := *, *;  // Ironic's answer to a creation
      a := Answer(id, node);
      if !d.managed { return Ok(result), a; }
      if !d.Complete() || d.macs == {} { return Ok(result.(skipped := result.skipped + 1)), a; }
      if d.bmcSecret.value !in secrets { return Err(RuntimeError("")), a; }
      if !d.propertiesParse { return Ok(result.(skipped := result.skipped + 1)), a; }
      if id == "" || id in ironic.nodes || Mapped(netbox.devices, id) { return Err(IntegrityError), a; }
      var prefix := if REDFISH <= d.driver.value then REDFISH else "ipmi";
      ironic.orders := ironic.orders + [NodeOrder(d.name, d.driver.value, d.resourceClass.value, prefix,
                                                  d.bmcAddress.value, d.bmcSecret.value)];
      ironic.nodes := ironic.nodes[id := node];
      netbox.devices := netbox.devices[i := d.(uuid := Some(id))];
      var created := SyncPorts(d.macs, id);
      outcome := Ok(result.(created := result.created + 1, portsCreated := result.portsCreated + created));
    }

    method Pass(i: nat, nodes: map<string, NodeRecord>, result: Counts)
      returns (outcome: Result<Counts>, ghost a: Answer)
      requires i < |netbox.devices|
      modifies netbox, ironic
      ensures outcome.Ok? ==> Now() == Treat(old(Now()), i, nodes, a)
      ensures outcome.Ok? && old(netbox.devices[i]).Pending() ==> New(old(Now()), a.id)
      ensures outcome.Ok? ==> !LacksSecret(old(netbox.devices[i]))
      ensures outcome.Ok? ==> Adding(result, outcome.value, old(netbox.devices[i]), nodes, old(Now()), Now())
      ensures outcome.Ok? ==>
                var d := old(netbox.devices)[i];
                ironic.orders == old(ironic.orders) + if d.Pending() then [OrderFor(d)] else []
      ensures outcome.Err? ==> Now() == old(Now()) && Refuses(old(netbox.devices)[i], Now(), a, outcome.error)
    {
      if Truthy(netbox.devices[i].uuid) {
        a := *;
        var result' := PassKnown(i, nodes, result, a);
        outcome := Ok(result');
      } else {
        outcome, a := PassUnknown(i, nodes, result);
      }
    }

    /** The pass over the devices. */
    method PassAll(nodes: map<string, NodeRecord>)
      returns (outcome: Result<Counts>, mapped: map<string, Device>, ghost answers: seq<Answer>)
      requires nodes == ironic.nodes && "" !in nodes
      modifies netbox, ironic
      ensures |answers| <= |old(netbox.devices)| && NewAnswers(old(Now()), |answers|, answers)
      ensures Now() == TreatFirst(old(Now()), |answers|, answers)
      ensures outcome.Ok? ==>
                && |answers| == |old(netbox.devices)| && Meets(mapped, netbox.devices)
                && outcome.value.discovered == 0 && Reports(old(Now()), Now(), [], outcome.value)
                && ironic.orders == old(ironic.orders) + OrdersFor(old(netbox.devices))
                && forall d | d in old(netbox.devices) :: !LacksSecret(d)
      ensures outcome.Err? ==>
                |answers| < |old(netbox.devices)|
                && exists a :: Refuses(old(netbox.devices)[|answers|], Now(), a, outcome.error)
    {
      ghost var s, asked := Now(), ironic.orders;
      var n := |netbox.devices|;
      var result := Counts(0, 0, 0, 0, 0);
      mapped, answers := map[], [];
      var i := 0;
      while i < n
        invariant i <= n == |s.devices| && Passed(s, Now(), i, answers, mapped, result)
        invariant Ordered(asked, ironic.orders, s.devices, i)
        invariant Readable(s.devices, i)
      {
        ghost var t, before, orders := Now(), result, ironic.orders;
        ghost var a: Answer;
        var d := netbox.devices[i];
        PassedNext(s, t, i, answers, mapped, result);
        outcome, a := Pass(i, nodes, result);
        if outcome.Err? { return; }
        OrdersNext(asked, orders, ironic.orders, s.devices, i);
        ReadableNext(s.devices, i);
        result := outcome.value;
        OnePassMore(s, t, Now(), i, answers, a, mapped, d, before, result);
        answers := answers + [a];
        mapped := MapDevice(mapped, netbox.devices[i].uuid, d);
        i := i + 1;
      }
      AllPassed(s, Now(), answers, mapped, result);
      OrdersDone(asked, ironic.orders, s.devices);
      ReadableDone(s.devices);
      outcome := Ok(result);
    }

    /** One run. It may stop with an exception: then it has done the beginning of a run. */
    method Reconcile() returns (outcome: Result<Counts>, ghost answers: seq<Answer>, ghost order: seq<string>)
      requires "" !in ironic.nodes
      modifies netbox, ironic
      ensures |answers| <= |old(netbox.devices)| && NewAnswers(old(Now()), |answers|, answers)
      ensures (forall id | id in order :: id in old(ironic.nodes)) && Now() == RunOf(old(Now()), answers, order)
      ensures outcome.Ok? ==> IsRun(old(Now()), answers, order) && Reports(old(Now()), Now(), order, outcome.value)
      ensures outcome.Ok? ==>
                && ironic.orders == old(ironic.orders) + OrdersFor(old(netbox.devices))
                && (forall d | d in old(netbox.devices) :: !LacksSecret(d)) && (order != [] ==> catalogue)
      ensures outcome.Err? ==>
                if |answers| < |old(netbox.devices)|
                then order == [] && exists a :: Refuses(old(netbox.devices)[|answers|], Now(), a, outcome.error)
                else !catalogue && outcome.error == RuntimeError("")
    {
      ghost var s := Now();
      var nodes := ironic.nodes;
      var mapped: map<string, Device>;
      outcome, mapped, answers := PassAll(nodes);
      order := [];
      if outcome.Err? { return; }
      var found: Result<nat>;
      found, order := DiscoverAll(nodes, mapped);
      if found.Err? { return Err(found.error), answers, order; }
      outcome := Ok(outcome.value.(discovered := found.value));
    }

    /** A device for every node of the listing that the passes have not met. */
    method DiscoverAll(nodes: map<string, NodeRecord>, mapped: map<string, Device>)
      returns (outcome: Result<nat>, ghost order: seq<string>)
      requires Meets(mapped, netbox.devices) && "" !in nodes
      modifies netbox
      ensures (forall id | id in order :: id in nodes) && netbox.devices == Discover(old(netbox.devices), nodes, order)
      ensures outcome.Ok? ==> Undiscovered(old(netbox.devices), nodes, order) && outcome.value == |order|
      ensures outcome.Err? ==> !catalogue && outcome.error == RuntimeError("")
      ensures order != [] ==> catalogue
    {
      var count: nat := 0;
      order := [];
      ghost var devices := netbox.devices;
      var rest := nodes.Keys;
      while rest != {}
        invariant rest <= nodes.Keys && count == |order| && Visited(order, nodes.Keys - rest, mapped.Keys)
        invariant netbox.devices == Discover(devices, nodes, order) && (order != [] ==> catalogue)
        decreases |rest|
      {
        var id :| id in rest;
        VisitedNext(order, nodes.Keys - rest, mapped.Keys, id);
        assert nodes.Keys - (rest - {id}) == nodes.Keys - rest + {id};
        rest := rest - {id};
        if id in mapped { continue; }
        if !catalogue { return Err(RuntimeError("")), order; }
        netbox.devices := netbox.devices + [Found(netbox.devices, id, nodes[id])];
        assert (order + [id])[..|order|] == order;
        order := order + [id];
        count := count + 1;
      }
      outcome := Ok(count);
    }
  }
}
