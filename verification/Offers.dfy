/** The offer list: what requesters are shown, and that an approval can keep it. */
module Offers {
  import opened Base
  import opened Domain
  import opened Ironic
  import Order

  /** A server in NetBox, with the custom fields that matter here. */
  datatype Server = Server(uuid: Option<string>, profile: Option<string>, rack: Option<string>,
                           active: bool, offerEnabled: bool, maxLeaseDays: Option<int>)

  function OrElse<T>(x: Option<T>, default: T): T {
    if x.Some? then x.value else default
  }

  // ---- filters ----

  function Keep<T>(s: seq<T>, p: T -> bool): seq<T> {
    if s == [] then []
    else if p(s[0]) then [s[0]] + Keep(s[1..], p)
    else Keep(s[1..], p)
  }

  lemma {:induction false} KeepAppend<T>(s: seq<T>, t: seq<T>, p: T -> bool)
    ensures Keep(s + t, p) == Keep(s, p) + Keep(t, p)
  {
    if s == [] {
      assert s + t == t;
    } else {
      assert (s + t)[0] == s[0] && (s + t)[1..] == s[1..] + t;
      KeepAppend(s[1..], t, p);
    }
  }

  lemma {:induction false} KeepMembers<T>(s: seq<T>, p: T -> bool)
    ensures forall x :: x in Keep(s, p) <==> x in s && p(x)
  {
    if s != [] {
      KeepMembers(s[1..], p);
      assert s == [s[0]] + s[1..];
    }
  }

  lemma {:induction false} KeepTwice<T>(s: seq<T>, p: T -> bool, q: T -> bool, both: T -> bool)
    requires forall x | x in s :: both(x) <==> p(x) && q(x)
    ensures Keep(Keep(s, p), q) == Keep(s, both)
  {
    if s != [] {
      assert s == [s[0]] + s[1..] && s[0] in s && forall x | x in s[1..] :: x in s;
      KeepTwice(s[1..], p, q, both);
      if p(s[0]) { assert ([s[0]] + Keep(s[1..], p))[1..] == Keep(s[1..], p); }
    }
  }

  lemma {:induction false} KeepMore<T>(s: seq<T>, p: T -> bool, q: T -> bool)
    requires forall x | x in s && p(x) :: q(x)
    ensures |Keep(s, p)| <= |Keep(s, q)|
    ensures (exists x :: x in s && q(x) && !p(x)) ==> |Keep(s, p)| < |Keep(s, q)|
    ensures (forall x | x in s && q(x) :: p(x)) ==> Keep(s, p) == Keep(s, q)
  {
    if s != [] {
      assert s == [s[0]] + s[1..] && s[0] in s && forall x | x in s[1..] :: x in s;
      KeepMore(s[1..], p, q);
    }
  }

  /** The places of the elements that pass. */
  ghost function Places<T>(s: seq<T>, p: T -> bool): set<int> {
    set i | 0 <= i < |s| && p(s[i])
  }

  /** A filter keeps one element for each place that passes. */
  lemma {:induction false} KeepCounts<T>(s: seq<T>, p: T -> bool)
    ensures |Keep(s, p)| == |Places(s, p)|
  {
    if s != [] {
      var last := |s| - 1;
      var init, x := s[..last], s[last];
      KeepCounts(init, p);
      KeepAppend(init, [x], p);
      assert s == init + [x] && [x][1..] == [];
      assert Places(s, p) == Places(init, p) + (if p(x) then {last} else {});
    }
  }

  lemma KeepSame<T>(s: seq<T>, p: T -> bool, q: T -> bool)
    requires forall x | x in s :: p(x) <==> q(x)
    ensures Keep(s, p) == Keep(s, q)
  {
    KeepMore(s, p, q);
  }

  // ---- the order by rack and node ----

  predicate KeyLe(a: OfferCandidate, b: OfferCandidate) {
    if a.rack != b.rack then Order.Le(a.rack, b.rack) else Order.Le(a.node, b.node)
  }

  lemma KeyLeTransitive(a: OfferCandidate, b: OfferCandidate, c: OfferCandidate)
    requires KeyLe(a, b) && KeyLe(b, c)
    ensures KeyLe(a, c)
  {
    if a.rack == b.rack == c.rack {
      Order.LeIsTransitive(a.node, b.node, c.node);
    } else {
      if a.rack != b.rack && b.rack != c.rack { Order.LeIsTransitive(a.rack, b.rack, c.rack); }
      if a.rack == c.rack { Order.LeIsAntisymmetric(a.rack, b.rack); }
    }
  }

  lemma KeyLeTotal(a: OfferCandidate, b: OfferCandidate)
    ensures KeyLe(a, b) || KeyLe(b, a)
  {
    Order.LeIsTotal(a.rack, b.rack);
    Order.LeIsTotal(a.node, b.node);
  }

  ghost predicate InOrder(s: seq<OfferCandidate>) {
    forall i, j | 0 <= i < j < |s| :: KeyLe(s[i], s[j])
  }

  /** `x` goes in front of the first element that is not smaller. */
  function Insert(x: OfferCandidate, s: seq<OfferCandidate>): seq<OfferCandidate> {
    if s == [] || KeyLe(x, s[0]) then [x] + s else [s[0]] + Insert(x, s[1..])
  }

  /** Python's sorted, by (rack, node): what it does is said by the three lemmas below. */
  function Sorted(s: seq<OfferCandidate>): seq<OfferCandidate> {
    if s == [] then [] else Insert(s[0], Sorted(s[1..]))
  }

  lemma {:induction false} InsertInOrder(x: OfferCandidate, s: seq<OfferCandidate>)
    requires InOrder(s)
    ensures InOrder(Insert(x, s))
    ensures multiset(Insert(x, s)) == multiset(s) + multiset{x}
  {
    if s == [] || KeyLe(x, s[0]) {
      forall j | 0 <= j < |s| ensures KeyLe(x, s[j]) {
        if j > 0 { KeyLeTransitive(x, s[0], s[j]); }
      }
    } else {
      InsertInOrder(x, s[1..]);
      KeyLeTotal(x, s[0]);
      assert s == [s[0]] + s[1..];
      forall y | y in Insert(x, s[1..]) ensures KeyLe(s[0], y) {
        assert y in multiset(s[1..]) + multiset{x};
        if y != x { assert y in s[1..]; }
      }
    }
  }

  /** Sorting is a permutation into the order of the keys. */
  lemma {:induction false} SortedInOrder(s: seq<OfferCandidate>)
    ensures InOrder(Sorted(s)) && multiset(Sorted(s)) == multiset(s)
    ensures forall i, j | 0 <= i < j < |Sorted(s)| ::
              var a, b := Sorted(s)[i], Sorted(s)[j];
              if a.rack == b.rack then Order.Le(a.node, b.node) else Order.Le(a.rack, b.rack)
  {
    if s != [] {
      SortedInOrder(s[1..]);
      InsertInOrder(s[0], Sorted(s[1..]));
      assert s == [s[0]] + s[1..];
    }
  }

  lemma {:induction false} KeepInsert(x: OfferCandidate, s: seq<OfferCandidate>, p: OfferCandidate -> bool)
    requires InOrder(s)
    ensures Keep(Insert(x, s), p) == if p(x) then Insert(x, Keep(s, p)) else Keep(s, p)
  {
    if s == [] || KeyLe(x, s[0]) {
      assert ([x] + s)[1..] == s;
      var kept := Keep(s, p);
      if kept != [] {
        KeepMembers(s, p);
        assert kept[0] in kept && kept[0] in s;
        var j :| 0 <= j < |s| && s[j] == kept[0];
        if j > 0 { KeyLeTransitive(x, s[0], s[j]); }
      }
    } else {
      KeepInsert(x, s[1..], p);
      assert ([s[0]] + Insert(x, s[1..]))[1..] == Insert(x, s[1..]);
      if p(s[0]) { assert ([s[0]] + Keep(s[1..], p))[1..] == Keep(s[1..], p); }
    }
  }

  /** Filtering and sorting commute; so the sort is stable. */
  lemma {:induction false} KeepSorted(s: seq<OfferCandidate>, p: OfferCandidate -> bool)
    ensures Keep(Sorted(s), p) == Sorted(Keep(s, p))
  {
    if s != [] {
      KeepSorted(s[1..], p);
      SortedInOrder(s[1..]);
      KeepInsert(s[0], Sorted(s[1..]), p);
      if p(s[0]) { assert ([s[0]] + Keep(s[1..], p))[1..] == Keep(s[1..], p); }
    }
  }

  lemma {:induction false} SortedOneKey(s: seq<OfferCandidate>)
    requires forall c, d | c in s && d in s :: c.rack == d.rack && c.node == d.node
    ensures Sorted(s) == s
  {
    if s != [] {
      assert s == [s[0]] + s[1..] && s[0] in s && forall c | c in s[1..] :: c in s;
      SortedOneKey(s[1..]);
      if s[1..] != [] { assert s[1..][0] in s; }
      Order.LeIsReflexive(s[0].node);
    }
  }

  /** Candidates with equal keys stay in the order they came in. */
  lemma SortedIsStable(s: seq<OfferCandidate>, rack: string, node: string)
    ensures var same := (c: OfferCandidate) => c.rack == rack && c.node == node;
            Keep(Sorted(s), same) == Keep(s, same)
  {
    var same := (c: OfferCandidate) => c.rack == rack && c.node == node;
    KeepSorted(s, same);
    KeepMembers(s, same);
    SortedOneKey(Keep(s, same));
  }

  // ---- the inventory ----

  /** The device carries the uuid of a node that Ironic has. */
  predicate Known(d: Server, nodes: map<string, Node>) {
    d.uuid.Some? && d.uuid.value in nodes
  }

  predicate Asked(d: Server, profile: Option<string>, rack: Option<string>) {
    (profile.Some? ==> d.profile == profile) && (Truthy(rack) ==> OrElse(d.rack, "") == rack.value)
  }

  function CandidateOf(d: Server, nodes: map<string, Node>): OfferCandidate
    requires Known(d, nodes)
  {
    var node := nodes[d.uuid.value];
    OfferCandidate(d.uuid.value, OrElse(d.rack, ""), OrElse(d.profile, ""), d.active, d.offerEnabled,
                   node.condition.provision.Available?, node.condition.maintenance, node.lessee,
                   node.condition.lastError,
                   if d.maxLeaseDays.None? || d.maxLeaseDays.value == 0 then 30 else d.maxLeaseDays.value)
  }

  function Joined(devices: seq<Server>, nodes: map<string, Node>, profile: Option<string>,
                  rack: Option<string>): seq<OfferCandidate> {
    if devices == [] then []
    else
      var last := |devices| - 1;
      var init := Joined(devices[..last], nodes, profile, rack);
      if Known(devices[last], nodes) && Asked(devices[last], profile, rack)
      then init + [CandidateOf(devices[last], nodes)]
      else init
  }

  /** A device takes part in the join exactly if it carries the uuid of a node and has the profile and the rack asked
      for, and becomes the candidate with these fields. */
  lemma JoinsExactly(d: Server, nodes: map<string, Node>, profile: Option<string>, rack: Option<string>)
    ensures Known(d, nodes) && Asked(d, profile, rack) <==>
              && d.uuid.Some? && d.uuid.value in nodes && (profile == None || profile == d.profile)
              && (rack == None || rack == Some("") || rack == Some(if d.rack.Some? then d.rack.value else ""))
    ensures Known(d, nodes) ==>
              var node := nodes[d.uuid.value];
              CandidateOf(d, nodes) == OfferCandidate(
                d.uuid.value, if d.rack.Some? then d.rack.value else "",
                if d.profile.Some? then d.profile.value else "",
                d.active, d.offerEnabled, node.condition.provision == ProvisionState.Available,
                node.condition.maintenance, node.lessee, node.condition.lastError,
                if d.maxLeaseDays == None || d.maxLeaseDays == Some(0) then 30 else d.maxLeaseDays.value)
  {
  }

  /** The join gives one candidate for each device that takes part, in their order; `at` lists their places. */
  lemma {:induction false} JoinedInOrder(devices: seq<Server>, nodes: map<string, Node>, profile: Option<string>,
                                         rack: Option<string>) returns (at: seq<nat>)
    ensures Increasing(at, |devices|) && |at| == |Joined(devices, nodes, profile, rack)|
    ensures forall j | 0 <= j < |devices| :: j in at <==> Known(devices[j], nodes) && Asked(devices[j], profile, rack)
    ensures forall i | 0 <= i < |at| ::
              Known(devices[at[i]], nodes)
              && Joined(devices, nodes, profile, rack)[i] == CandidateOf(devices[at[i]], nodes)
  {
    at := [];
    if devices != [] {
      var last := |devices| - 1;
      at := JoinedInOrder(devices[..last], nodes, profile, rack);
      if Known(devices[last], nodes) && Asked(devices[last], profile, rack) { at := at + [last]; }
    }
  }

  /** NetBoxIronicOfferInventory.candidates */
  method Candidates(devices: seq<Server>, nodes: map<string, Node>, profile: Option<string>, rack: Option<string>)
    returns (candidates: seq<OfferCandidate>)
    ensures candidates == Sorted(Joined(devices, nodes, profile, rack))
  {
    candidates := [];
    for i := 0 to |devices|
      invariant candidates == Joined(devices[..i], nodes, profile, rack)
    {
      var device := devices[i];
      assert devices[..i + 1][..i] == devices[..i];
      if device.uuid.None? || device.uuid.value !in nodes || (profile.Some? && device.profile != profile) {
        continue;
      }
      var rackName := OrElse(device.rack, "");
      if Truthy(rack) && rackName != rack.value { continue; }
      var node := nodes[device.uuid.value];
      candidates := candidates + [OfferCandidate(
        device.uuid.value, rackName, OrElse(device.profile, ""), device.active, device.offerEnabled,
        node.condition.provision.Available?, node.condition.maintenance, node.lessee, node.condition.lastError,
        if device.maxLeaseDays.None? || device.maxLeaseDays.value == 0 then 30 else device.maxLeaseDays.value)];
    }
    assert devices[..|devices|] == devices;
    candidates := Sorted(candidates);
  }

  function Matches(profile: Option<string>, rack: Option<string>): OfferCandidate -> bool {
    (c: OfferCandidate) => (profile.Some? ==> c.profile == profile.value) && (Truthy(rack) ==> c.rack == rack.value)
  }

  /** The device has no profile, and the empty profile is asked for. */
  predicate Missed(d: Server, nodes: map<string, Node>, profile: Option<string>, rack: Option<string>) {
    Known(d, nodes) && profile == Some("") && d.profile.None? && (Truthy(rack) ==> OrElse(d.rack, "") == rack.value)
  }

  lemma {:induction false} JoinedIsFiltered(devices: seq<Server>, nodes: map<string, Node>, profile: Option<string>,
                                            rack: Option<string>)
    ensures var filtered := Keep(Joined(devices, nodes, None, None), Matches(profile, rack));
            && |Joined(devices, nodes, profile, rack)| <= |filtered|
            && ((forall d | d in devices :: !Missed(d, nodes, profile, rack)) ==>
              Joined(devices, nodes, profile, rack) == filtered)
            && ((exists d :: d in devices && Missed(d, nodes, profile, rack)) ==>
              |Joined(devices, nodes, profile, rack)| < |filtered|)
  {
    if devices != [] {
      var last := |devices| - 1;
      var init, d := devices[..last], devices[last];
      JoinedIsFiltered(init, nodes, profile, rack);
      assert devices == init + [d] && d in devices && forall x | x in init :: x in devices;
      if Known(d, nodes) {
        assert Joined(devices, nodes, None, None) == Joined(init, nodes, None, None) + [CandidateOf(d, nodes)];
        assert Matches(profile, rack)(CandidateOf(d, nodes)) <==>
                 Asked(d, profile, rack) || Missed(d, nodes, profile, rack);
        KeepAppend(Joined(init, nodes, None, None), [CandidateOf(d, nodes)], Matches(profile, rack));
        assert [CandidateOf(d, nodes)][1..] == [];
      }
    }
  }

  /** The inventory for one profile and rack is the filter of the whole inventory, in its order, exactly when
      the profile asked for is not empty or every known device (of that rack) has one. */
  lemma CandidatesAreTheFilteredList(devices: seq<Server>, nodes: map<string, Node>, profile: Option<string>,
                                     rack: Option<string>)
    ensures Sorted(Joined(devices, nodes, profile, rack))
            == Keep(Sorted(Joined(devices, nodes, None, None)),
                    (c: OfferCandidate) => profile in {None, Some(c.profile)} && rack in {None, Some(""), Some(c.rack)})
            <==> forall d | d in devices ::
                   !(profile == Some("") && d.profile == None && d.uuid.Some? && d.uuid.value in nodes
                     && rack in {None, Some(""), Some(if d.rack.Some? then d.rack.value else "")})
  {
    var all, asked := Joined(devices, nodes, None, None), Joined(devices, nodes, profile, rack);
    JoinedIsFiltered(devices, nodes, profile, rack);
    KeepSorted(all, Matches(profile, rack));
    KeepSame(Sorted(all), Matches(profile, rack),
             (c: OfferCandidate) => profile in {None, Some(c.profile)} && rack in {None, Some(""), Some(c.rack)});
    assert forall d :: Missed(d, nodes, profile, rack) <==>
             profile == Some("") && d.profile == None && d.uuid.Some? && d.uuid.value in nodes
             && rack in {None, Some(""), Some(if d.rack.Some? then d.rack.value else "")};
    if exists d :: d in devices && Missed(d, nodes, profile, rack) {
      SortedInOrder(asked);
      SortedInOrder(Keep(all, Matches(profile, rack)));
      assert |multiset(Sorted(asked))| == |multiset(asked)|;
      assert |multiset(Sorted(Keep(all, Matches(profile, rack))))| == |multiset(Keep(all, Matches(profile, rack)))|;
    }
  }

  // ---- the offers ----

  datatype Key = Key(profile: string, rack: string)

  datatype Offer = Offer(key: Key, available: int, maxLeaseDays: int)

  function KeyOf(c: OfferCandidate): Key {
    Key(c.profile, c.rack)
  }

  function InGroup(k: Key): OfferCandidate -> bool {
    (c: OfferCandidate) => c.Eligible() && KeyOf(c) == k
  }

  /** What makes a candidate part of an offer: it is active and offered in NetBox, and available in Ironic without
      maintenance, lessee or error. */
  predicate OnOffer(c: OfferCandidate, k: Key) {
    && c.netboxActive && c.offerEnabled && c.available && !c.maintenance
    && c.lessee in {None, Some("")} && c.lastError in {None, Some("")}
    && c.profile == k.profile && c.rack == k.rack
  }

  predicate GroupLe(a: Key, b: Key) {
    if a.profile != b.profile then Order.Le(a.profile, b.profile) else Order.Le(a.rack, b.rack)
  }

  /** The offer says how many eligible candidates its group has, and the least of their lease limits. */
  ghost predicate Describes(o: Offer, candidates: seq<OfferCandidate>) {
    var rows := Keep(candidates, InGroup(o.key));
    && o.available == |rows| > 0
    && (forall c | c in rows :: o.maxLeaseDays <= c.maxLeaseDays)
    && (exists c :: c in rows && c.maxLeaseDays == o.maxLeaseDays)
  }

  /** The offer, told by the places of the candidates it is made of. */
  ghost predicate Tells(o: Offer, candidates: seq<OfferCandidate>) {
    && o.available == |set i | 0 <= i < |candidates| && OnOffer(candidates[i], o.key)| > 0
    && (forall c | c in candidates && OnOffer(c, o.key) :: o.maxLeaseDays <= c.maxLeaseDays)
    && (exists c :: c in candidates && OnOffer(c, o.key) && c.maxLeaseDays == o.maxLeaseDays)
  }

  lemma EligibleIsOnOffer(c: OfferCandidate)
    ensures c.Eligible() <==> OnOffer(c, KeyOf(c))
  {
  }

  lemma GroupExactly(k: Key)
    ensures forall c :: InGroup(k)(c) <==> OnOffer(c, k)
  {
    forall c ensures InGroup(k)(c) <==> OnOffer(c, k) {
      EligibleIsOnOffer(c);
    }
  }

  lemma DescriptionTells(o: Offer, candidates: seq<OfferCandidate>)
    ensures Describes(o, candidates) <==> Tells(o, candidates)
  {
    GroupExactly(o.key);
    KeepCounts(candidates, InGroup(o.key));
    KeepMembers(candidates, InGroup(o.key));
    var rows := Keep(candidates, InGroup(o.key));
    assert forall c :: c in rows <==> c in candidates && OnOffer(c, o.key);
    assert Places(candidates, InGroup(o.key)) == set i | 0 <= i < |candidates| && OnOffer(candidates[i], o.key);
    if Describes(o, candidates) {
      var c :| c in rows && c.maxLeaseDays == o.maxLeaseDays;
      assert c in candidates && OnOffer(c, o.key);
    }
    if Tells(o, candidates) {
      var c :| c in candidates && OnOffer(c, o.key) && c.maxLeaseDays == o.maxLeaseDays;
      assert c in rows;
    }
  }

  function KeysOf(offers: seq<Offer>): (keys: seq<Key>)
    ensures |keys| == |offers| && forall i | 0 <= i < |offers| :: keys[i] == offers[i].key
  {
    seq(|offers|, i requires 0 <= i < |offers| => offers[i].key)
  }

  lemma LeastKey(s: set<Key>) returns (m: Key)
    requires s != {}
    ensures m in s && forall k | k in s :: GroupLe(m, k)
  {
    var any :| any in s;
    var profiles := set k | k in s :: k.profile;
    assert any.profile in profiles;
    var profile := Order.Least(profiles);
    var racks := set k | k in s && k.profile == profile :: k.rack;
    var k :| k in s && k.profile == profile;
    assert k.rack in racks;
    var rack := Order.Least(racks);
    m := Key(profile, rack);
    forall k | k in s ensures GroupLe(m, k) {
      assert k.profile in profiles;
      if k.profile == profile { assert k.rack in racks; }
    }
  }

  /** The eligible candidates, grouped. */
  method Group(candidates: seq<OfferCandidate>) returns (grouped: map<Key, seq<OfferCandidate>>)
    ensures forall k | k in grouped :: grouped[k] == Keep(candidates, InGroup(k)) && grouped[k] != []
    ensures forall c | c in candidates && c.Eligible() :: KeyOf(c) in grouped
    ensures forall k, c | k in grouped :: c in grouped[k] <==>
              c in candidates && OnOffer(c, k)
  {
    grouped := map[];
    for i := 0 to |candidates|
      invariant forall k | k in grouped :: grouped[k] == Keep(candidates[..i], InGroup(k)) && grouped[k] != []
      invariant forall k | k !in grouped :: Keep(candidates[..i], InGroup(k)) == []
      invariant forall c | c in candidates[..i] && c.Eligible() :: KeyOf(c) in grouped
    {
      var c := candidates[i];
      assert candidates[..i + 1] == candidates[..i] + [c];
      forall k ensures Keep(candidates[..i + 1], InGroup(k))
                       == Keep(candidates[..i], InGroup(k)) + if InGroup(k)(c) then [c] else []
      {
        KeepAppend(candidates[..i], [c], InGroup(k));
        assert [c][1..] == [];
      }
      if c.Eligible() {
        var key := KeyOf(c);
        grouped := grouped[key := (if key in grouped then grouped[key] else []) + [c]];
      }
    }
    assert candidates[..|candidates|] == candidates;
    forall k, c | k in grouped ensures c in grouped[k] <==> c in candidates && OnOffer(c, k) {
      GroupExactly(k);
      KeepMembers(candidates, InGroup(k));
    }
  }

  /** The least lease limit of a group. */
  method LeastLimit(rows: seq<OfferCandidate>) returns (days: int)
    requires rows != []
    ensures forall c | c in rows :: days <= c.maxLeaseDays
    ensures exists c :: c in rows && c.maxLeaseDays == days
  {
    days := rows[0].maxLeaseDays;
    for i := 1 to |rows|
      invariant forall c | c in rows[..i] :: days <= c.maxLeaseDays
      invariant exists c :: c in rows && c.maxLeaseDays == days
    {
      assert rows[..i + 1] == rows[..i] + [rows[i]];
      if rows[i].maxLeaseDays < days { days := rows[i].maxLeaseDays; }
    }
    assert rows[..|rows|] == rows;
  }

  ghost predicate KeysAscend(offers: seq<Offer>) {
    forall i, j | 0 <= i < j < |offers| :: GroupLe(offers[i].key, offers[j].key) && offers[i].key != offers[j].key
  }

  /** The offers of all the groups but those that `rest` still has; these come later. */
  ghost predicate Listed(offers: seq<Offer>, keys: set<Key>, rest: set<Key>, candidates: seq<OfferCandidate>) {
    && rest <= keys
    && (forall k :: k in KeysOf(offers) <==> k in keys - rest)
    && (forall o | o in offers :: Describes(o, candidates))
    && KeysAscend(offers)
    && (forall i, k | 0 <= i < |offers| && k in rest :: GroupLe(offers[i].key, k))
  }

  lemma ListOneMore(offers: seq<Offer>, keys: set<Key>, rest: set<Key>, candidates: seq<OfferCandidate>, o: Offer)
    requires Listed(offers, keys, rest, candidates) && Describes(o, candidates)
    requires o.key in rest && forall k | k in rest :: GroupLe(o.key, k)
    ensures Listed(offers + [o], keys, rest - {o.key}, candidates)
  {
    var more := offers + [o];
    assert KeysOf(more) == KeysOf(offers) + [o.key];
    forall i | 0 <= i < |offers| ensures offers[i].key != o.key && GroupLe(offers[i].key, o.key) {
      assert KeysOf(offers)[i] in KeysOf(offers);
    }
  }

  /** list_offers: one offer a group, in the order of profile and rack. */
  method ListOffers(candidates: seq<OfferCandidate>) returns (offers: seq<Offer>)
    ensures forall o | o in offers :: Describes(o, candidates)
    ensures forall o | o in offers :: Tells(o, candidates)
    ensures forall c | c in candidates && c.Eligible() :: KeyOf(c) in KeysOf(offers)
    ensures forall c, k | c in candidates && OnOffer(c, k) :: k in KeysOf(offers)
    ensures KeysAscend(offers)
    ensures forall i, j | 0 <= i < j < |offers| ::
              var a, b := offers[i].key, offers[j].key;
              if a.profile == b.profile then a.rack != b.rack && Order.Le(a.rack, b.rack)
              else Order.Le(a.profile, b.profile)
  {
    var grouped := Group(candidates);
    offers := [];
    var rest := grouped.Keys;
    while rest != {}
      invariant Listed(offers, grouped.Keys, rest, candidates)
      decreases |rest|
    {
      ghost var least := LeastKey(rest);
      var key :| key in rest && forall k | k in rest :: GroupLe(key, k);
      var days := LeastLimit(grouped[key]);
      var offer := Offer(key, |grouped[key]|, days);
      ListOneMore(offers, grouped.Keys, rest, candidates, offer);
      offers := offers + [offer];
      rest := rest - {key};
    }
    forall o | o in offers ensures Tells(o, candidates) {
      DescriptionTells(o, candidates);
    }
  }

  // ---- what the offers are worth ----

  function Sum(keys: seq<Key>, candidates: seq<OfferCandidate>): nat {
    if keys == [] then 0 else |Keep(candidates, InGroup(keys[0]))| + Sum(keys[1..], candidates)
  }

  lemma {:induction false} SumOneMore(keys: seq<Key>, c: OfferCandidate, rest: seq<OfferCandidate>)
    requires Distinct(keys)
    ensures Sum(keys, [c] + rest) == Sum(keys, rest) + if c.Eligible() && KeyOf(c) in keys then 1 else 0
  {
    assert ([c] + rest)[1..] == rest;
    if keys != [] {
      assert keys == [keys[0]] + keys[1..];
      SumOneMore(keys[1..], c, rest);
    }
  }

  lemma {:induction false} SumIsAll(keys: seq<Key>, candidates: seq<OfferCandidate>)
    requires Distinct(keys) && forall c | c in candidates && c.Eligible() :: KeyOf(c) in keys
    ensures Sum(keys, candidates) == |Keep(candidates, (c: OfferCandidate) => c.Eligible())|
  {
    if candidates == [] {
      SumOfNothing(keys);
    } else {
      assert candidates == [candidates[0]] + candidates[1..] && candidates[0] in candidates;
      SumOneMore(keys, candidates[0], candidates[1..]);
      SumIsAll(keys, candidates[1..]);
    }
  }

  lemma {:induction false} SumOfNothing(keys: seq<Key>)
    ensures Sum(keys, []) == 0
  {
    if keys != [] { SumOfNothing(keys[1..]); }
  }

  function TotalOffered(offers: seq<Offer>): int {
    if offers == [] then 0 else offers[0].available + TotalOffered(offers[1..])
  }

  lemma {:induction false} AvailableIsSum(offers: seq<Offer>, candidates: seq<OfferCandidate>)
    requires forall o | o in offers :: Describes(o, candidates)
    ensures TotalOffered(offers) == Sum(KeysOf(offers), candidates)
  {
    if offers != [] {
      assert offers == [offers[0]] + offers[1..] && offers[0] in offers;
      AvailableIsSum(offers[1..], candidates);
      assert KeysOf(offers)[1..] == KeysOf(offers[1..]);
    }
  }

  /** Every eligible candidate is counted in exactly one offer. */
  lemma OffersAddUp(offers: seq<Offer>, candidates: seq<OfferCandidate>)
    requires forall o | o in offers :: Describes(o, candidates)
    requires forall c | c in candidates && c.Eligible() :: KeyOf(c) in KeysOf(offers)
    requires KeysAscend(offers)
    ensures TotalOffered(offers) == |Keep(candidates, (c: OfferCandidate) => c.Eligible())|
    ensures TotalOffered(offers) == |set i | 0 <= i < |candidates| && OnOffer(candidates[i], KeyOf(candidates[i]))|
  {
    AvailableIsSum(offers, candidates);
    SumIsAll(KeysOf(offers), candidates);
    KeepCounts(candidates, (c: OfferCandidate) => c.Eligible());
    forall c: OfferCandidate ensures c.Eligible() <==> OnOffer(c, KeyOf(c)) {
      EligibleIsOnOffer(c);
    }
    assert Places(candidates, (c: OfferCandidate) => c.Eligible())
           == set i | 0 <= i < |candidates| && OnOffer(candidates[i], KeyOf(candidates[i]));
  }

  lemma {:induction false} SuitableIsFilter(r: Request, candidates: seq<OfferCandidate>, days: int)
    ensures r.Suitable(candidates, days) == Keep(candidates, (c: OfferCandidate) => r.Suits(c, days))
  {
    if candidates != [] {
      var last := |candidates| - 1;
      SuitableIsFilter(r, candidates[..last], days);
      assert candidates == candidates[..last] + [candidates[last]];
      KeepAppend(candidates[..last], [candidates[last]], (c: OfferCandidate) => r.Suits(c, days));
      assert [candidates[last]][1..] == [];
    }
  }

  /** Enough suitable candidates are left in the filtered inventory. */
  lemma GroupIsSuitable(o: Offer, all: seq<OfferCandidate>, r: Request, days: int)
    requires Describes(o, all) && days <= o.maxLeaseDays && r.profile == o.key.profile
    requires Truthy(r.rack) ==> r.rack.value == o.key.rack
    ensures |r.Suitable(Keep(all, Matches(Some(r.profile), r.rack)), days)| >= o.available
  {
    var suits := (c: OfferCandidate) => r.Suits(c, days);
    SuitableIsFilter(r, Keep(all, Matches(Some(r.profile), r.rack)), days);
    KeepTwice(all, Matches(Some(r.profile), r.rack), suits, suits);
    KeepMembers(all, InGroup(o.key));
    KeepMore(all, InGroup(o.key), suits);
  }

  /** Offers are honest: a request within an offer's count and lease limit, approved at any later time on the
      same inventory, passes the selection, and every chosen node may be leased for all the time that is left. */
  lemma OffersAreHonest(devices: seq<Server>, nodes: map<string, Node>, o: Offer, r: Request, actor: Actor, dcn: string,
                        created: int, days: int, now: int)
    requires Tells(o, Sorted(Joined(devices, nodes, None, None)))
    requires r.profile == o.key.profile && r.profile != "" && r.rack in {None, Some(""), Some(o.key.rack)}
    requires 0 <= r.quantity <= o.available && 1 <= days <= o.maxLeaseDays
    requires r.requestedUntil == created + days * 86_400_000_000 && created <= now
    requires r.state in {Submitted, Reviewing} && actor.projectId == dcn && "baremetal_admin" in actor.roles
    ensures var candidates := Sorted(Joined(devices, nodes, Some(r.profile), r.rack));
            var decided := r.Approve(actor, dcn, candidates, now);
            && decided.Ok? && |decided.value.nodes| == r.quantity
            && forall n | n in decided.value.nodes ::
                 exists c | c in candidates ::
                   c.node == n && OnOffer(c, Key(r.profile, c.rack))
                   && r.requestedUntil - now <= c.maxLeaseDays * 86_400_000_000
  {
    var all := Sorted(Joined(devices, nodes, None, None));
    var candidates := Sorted(Joined(devices, nodes, Some(r.profile), r.rack));
    DescriptionTells(o, all);
    CandidatesAreTheFilteredList(devices, nodes, Some(r.profile), r.rack);
    KeepSame(all, Matches(Some(r.profile), r.rack),
             (c: OfferCandidate) =>
               Some(r.profile) in {None, Some(c.profile)} && r.rack in {None, Some(""), Some(c.rack)});
    var left := RemainingDays(r.requestedUntil, now);
    assert r.requestedUntil - now <= days * DAY;
    GroupIsSuitable(o, all, r, left);
    ApprovalChoosesCoveringNodes(r, actor, dcn, candidates, now);
  }
}
