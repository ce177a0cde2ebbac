/**
 The lease request and its lifecycle. `Request` is the value a database row holds;
 `AccessRequest` is the object the service changes in place, proved against it.
 */
module Domain {
  import opened Base

  datatype RequestState =
    | Submitted | Reviewing | Approved | Allocating | Leased | Rejected | Cancelled
    | ReturnRequested | Cleaning | Returned | Errored

  datatype Actor = Actor(userId: string, projectId: string, roles: set<string>,
                         userDomainId: string, projectDomainId: string) {

    predicate CanRequest(dcnDomain: string) {
      && dcnDomain != ""
      && userDomainId == dcnDomain
      && projectDomainId == dcnDomain
      && roles * {"member", "admin", "baremetal_requester", "baremetal_operator", "baremetal_admin"} != {}
    }

    predicate CanOperate() {
      roles * {"baremetal_operator", "baremetal_admin", "admin"} != {}
    }

    predicate IsAdmin(dcn: string) {
      projectId == dcn && "baremetal_admin" in roles
    }
  }

  /** Who may request, operate and administer, by domain, project and role. */
  lemma RolesExactly(a: Actor, dcn: string, dcnDomain: string)
    ensures a.CanRequest(dcnDomain) <==>
              && dcnDomain != "" && a.userDomainId == dcnDomain && a.projectDomainId == dcnDomain
              && ("member" in a.roles || "admin" in a.roles || "baremetal_requester" in a.roles
                  || "baremetal_operator" in a.roles || "baremetal_admin" in a.roles)
    ensures a.CanOperate() <==>
              "baremetal_operator" in a.roles || "baremetal_admin" in a.roles || "admin" in a.roles
    ensures a.IsAdmin(dcn) <==> a.projectId == dcn && "baremetal_admin" in a.roles
  {
    var requesters := {"member", "admin", "baremetal_requester", "baremetal_operator", "baremetal_admin"};
    assert forall x :: x in a.roles * requesters <==> x in a.roles && x in requesters;
    var operators := {"baremetal_operator", "baremetal_admin", "admin"};
    assert forall x :: x in a.roles * operators <==> x in a.roles && x in operators;
  }

  datatype OfferCandidate = OfferCandidate(
    node: string, rack: string, profile: string, netboxActive: bool, offerEnabled: bool,
    available: bool, maintenance: bool, lessee: Option<string>, lastError: Option<string>,
    maxLeaseDays: int) {

    predicate Eligible() {
      netboxActive && offerEnabled && available && !maintenance && !Truthy(lessee) && !Truthy(lastError)
    }
  }

  /** Times are whole microseconds. */
  const DAY: int := 86_400_000_000

  /** The whole days from now to the deadline, rounded up, and at least one. */
  function RemainingDays(until: int, now: int): (days: int)
    ensures days >= 1 && until - now <= days * DAY
    ensures forall d: int {:trigger d * DAY} | d >= 1 && until - now <= d * DAY :: days <= d
  {
    var days := -((now - until) / DAY);
    if days < 1 then 1 else days
  }

  predicate IsSpace(c: char) {
    var code := c as int;
    || 9 <= code <= 13 || 28 <= code <= 32 || code == 0x85 || code == 0xA0 || code == 0x1680
    || 0x2000 <= code <= 0x200A || code == 0x2028 || code == 0x2029 || code == 0x202F || code == 0x205F
    || code == 0x3000
  }

  /** The text without what is blank around it. */
  function StripBy(s: string, blank: char -> bool): (t: string)
    ensures t != "" ==> !blank(t[0]) && !blank(t[|t| - 1])
    ensures t == "" <==> forall c | c in s :: blank(c)
  {
    if s == "" then ""
    else if blank(s[0]) then
      assert s == [s[0]] + s[1..];
      StripBy(s[1..], blank)
    else if blank(s[|s| - 1]) then
      assert s[0] in s && s[0] == s[..|s| - 1][0] && s[0] in s[..|s| - 1];
      StripBy(s[..|s| - 1], blank)
    else
      assert s[0] in s;
      s
  }

  function Strip(s: string): (t: string)
    ensures t == "" <==> forall c | c in s :: IsSpace(c)
  {
    StripBy(s, c => IsSpace(c))
  }

  /** The characters that Python counts as blank, by code point. */
  lemma SpacesExactly(c: char)
    ensures IsSpace(c) <==> c as int in {
              0x09, 0x0A, 0x0B, 0x0C, 0x0D, 0x1C, 0x1D, 0x1E, 0x1F, 0x20, 0x85, 0xA0, 0x1680, 0x2000, 0x2001, 0x2002,
              0x2003, 0x2004, 0x2005, 0x2006, 0x2007, 0x2008, 0x2009, 0x200A, 0x2028, 0x2029, 0x202F, 0x205F, 0x3000}
  {
  }

  /** `t` is the part of `s` from i to j, and all the rest is blank. */
  ghost predicate Trims(s: string, t: string, i: nat, j: nat, blank: char -> bool) {
    i <= j <= |s| && t == s[i..j] && forall k | 0 <= k < |s| && !(i <= k < j) :: blank(s[k])
  }

  lemma TrimHead(s: string, t: string, i: nat, j: nat, blank: char -> bool)
    requires s != "" && blank(s[0]) && Trims(s[1..], t, i, j, blank)
    ensures Trims(s, t, i + 1, j + 1, blank)
  {
    assert s[1..][i..j] == s[i + 1..j + 1];
    forall k | 0 <= k < |s| && !(i + 1 <= k < j + 1) ensures blank(s[k]) {
      if k > 0 { assert s[1..][k - 1] == s[k]; }
    }
  }

  lemma TrimLast(s: string, t: string, i: nat, j: nat, blank: char -> bool)
    requires s != "" && blank(s[|s| - 1]) && Trims(s[..|s| - 1], t, i, j, blank)
    ensures Trims(s, t, i, j, blank)
  {
    assert s[..|s| - 1][i..j] == s[i..j];
    forall k | 0 <= k < |s| && !(i <= k < j) ensures blank(s[k]) {
      if k < |s| - 1 { assert s[..|s| - 1][k] == s[k]; }
    }
  }

  lemma {:induction false} StripByIsTrim(s: string, blank: char -> bool) returns (i: nat, j: nat)
    ensures Trims(s, StripBy(s, blank), i, j, blank)
  {
    if s == "" {
      i, j := 0, 0;
    } else if blank(s[0]) {
      i, j := StripByIsTrim(s[1..], blank);
      TrimHead(s, StripBy(s, blank), i, j, blank);
      i, j := i + 1, j + 1;
    } else if blank(s[|s| - 1]) {
      i, j := StripByIsTrim(s[..|s| - 1], blank);
      TrimLast(s, StripBy(s, blank), i, j, blank);
    } else {
      i, j := 0, |s|;
    }
  }

  /** The text between the blanks: nothing but blanks is cut off, at both ends, and none is left there. */
  lemma StripIsTrim(s: string) returns (i: nat, j: nat)
    ensures i <= j <= |s| && Strip(s) == s[i..j]
    ensures forall k | 0 <= k < |s| && !(i <= k < j) :: IsSpace(s[k])
    ensures i < j ==> !IsSpace(s[i]) && !IsSpace(s[j - 1])
  {
    i, j := StripByIsTrim(s, c => IsSpace(c));
    var t := StripBy(s, c => IsSpace(c));
    if i < j { assert t[0] == s[i] && t[|t| - 1] == s[j - 1]; }
  }

  datatype Request = Request(
    id: string, projectId: string, userId: string, profile: string, quantity: int, purpose: string,
    requestedUntil: int, rack: Option<string>, state: RequestState, nodes: seq<string>,
    reviewer: Option<string>, reason: Option<string>, version: int) {

    /** A candidate that may be chosen for this request when `days` days of it remain. */
    predicate Suits(c: OfferCandidate, days: int) {
      && c.Eligible() && c.profile == profile && c.maxLeaseDays >= days
      && (Truthy(rack) ==> c.rack == rack.value)
    }

    /** The suitable candidates, in the order offered. */
    function Suitable(candidates: seq<OfferCandidate>, days: int): seq<OfferCandidate> {
      if candidates == [] then []
      else
        var last := |candidates| - 1;
        Suitable(candidates[..last], days) + (if Suits(candidates[last], days) then [candidates[last]] else [])
    }

    predicate Undecided() {
      state.Submitted? || state.Reviewing?
    }

    predicate CanApprove(actor: Actor, dcn: string, candidates: seq<OfferCandidate>, now: int) {
      actor.IsAdmin(dcn) && Undecided() && |Suitable(candidates, RemainingDays(requestedUntil, now))| >= quantity
    }

    function Approve(actor: Actor, dcn: string, candidates: seq<OfferCandidate>, now: int): Result<Request> {
      if !CanApprove(actor, dcn, candidates, now) then Err(DomainError)
      else
        var chosen := TakeFirst(Suitable(candidates, RemainingDays(requestedUntil, now)), quantity);
        Ok(this.(nodes := NodesOf(chosen), reviewer := Some(actor.userId), state := Approved, version := version + 1))
    }

    function Reject(actor: Actor, dcn: string, text: string): Result<Request> {
      if !actor.IsAdmin(dcn) || !Undecided() || Strip(text) == "" then Err(DomainError)
      else Ok(this.(state := Rejected, reviewer := Some(actor.userId),
                    reason := Some(Truncate(Strip(text))), version := version + 1))
    }

    function Cancel(actor: Actor): Result<Request> {
      if actor.projectId != projectId || !Undecided() then Err(DomainError)
      else Ok(this.(state := Cancelled, version := version + 1))
    }

    function Transition(from: RequestState, to: RequestState): Result<Request> {
      if state != from then Err(DomainError) else Ok(this.(state := to, version := version + 1))
    }

    function RequestReturn(actor: Actor, dcn: string): Result<Request> {
      if actor.projectId != projectId && !actor.IsAdmin(dcn) then Err(DomainError)
      else Transition(Leased, ReturnRequested)
    }

    function MarkError(text: string): Result<Request> {
      if state.Returned? || state.Rejected? || state.Cancelled? then Err(DomainError)
      else Ok(this.(state := Errored, reason := Some(Truncate(text)), version := version + 1))
    }

    predicate Expired(now: int) {
      state.Leased? && requestedUntil <= now
    }
  }

  function NodesOf(cs: seq<OfferCandidate>): (ns: seq<string>)
    ensures |ns| == |cs| && forall i | 0 <= i < |cs| :: ns[i] == cs[i].node
  {
    seq(|cs|, i requires 0 <= i < |cs| => cs[i].node)
  }

  /** Suitable keeps exactly the suitable candidates: active and offered in NetBox, available in Ironic without
      maintenance, lessee or error, of the profile and the rack asked for, and leased out for long enough. */
  lemma {:induction false} SuitableMembers(r: Request, candidates: seq<OfferCandidate>, days: int)
    ensures forall c :: c in r.Suitable(candidates, days) <==>
              && c in candidates
              && c.netboxActive && c.offerEnabled && c.available && !c.maintenance
              && (c.lessee == None || c.lessee == Some("")) && (c.lastError == None || c.lastError == Some(""))
              && c.profile == r.profile && (r.rack == None || r.rack == Some("") || r.rack == Some(c.rack))
              && days <= c.maxLeaseDays
  {
    if candidates != [] {
      var last := |candidates| - 1;
      SuitableMembers(r, candidates[..last], days);
      assert candidates == candidates[..last] + [candidates[last]];
    }
  }

  ghost predicate Increasing(at: seq<nat>, bound: nat) {
    (forall i | 0 <= i < |at| :: at[i] < bound) && forall i, j | 0 <= i < j < |at| :: at[i] < at[j]
  }

  /** The suitable candidates in the order offered: `at` lists their places. */
  lemma {:induction false} SuitableInOrder(r: Request, candidates: seq<OfferCandidate>, days: int)
    returns (at: seq<nat>)
    ensures Increasing(at, |candidates|) && |at| == |r.Suitable(candidates, days)|
    ensures forall i | 0 <= i < |at| :: r.Suitable(candidates, days)[i] == candidates[at[i]]
    ensures forall j | 0 <= j < |candidates| :: j in at <==> r.Suits(candidates[j], days)
  {
    at := [];
    if candidates != [] {
      var last := |candidates| - 1;
      at := SuitableInOrder(r, candidates[..last], days);
      if r.Suits(candidates[last], days) { at := at + [last]; }
    }
  }

  /** Approval, by what it looks at and what it writes. `at` lists the places of the candidates that may be chosen:
      it succeeds exactly for an administrator of the operator, on an undecided request, when they are enough, and
      takes the first of them in the order offered. */
  lemma ApprovalExactly(r: Request, actor: Actor, dcn: string, candidates: seq<OfferCandidate>, now: int)
    returns (at: seq<nat>)
    ensures Increasing(at, |candidates|)
    ensures forall j | 0 <= j < |candidates| :: j in at <==>
              var c := candidates[j];
              && c.netboxActive && c.offerEnabled && c.available && !c.maintenance
              && (c.lessee == None || c.lessee == Some("")) && (c.lastError == None || c.lastError == Some(""))
              && c.profile == r.profile && (r.rack == None || r.rack == Some("") || r.rack == Some(c.rack))
              && 1 <= c.maxLeaseDays && r.requestedUntil - now <= c.maxLeaseDays * 86_400_000_000
    ensures r.Approve(actor, dcn, candidates, now).Ok? <==>
              && actor.projectId == dcn && "baremetal_admin" in actor.roles
              && (r.state == Submitted || r.state == Reviewing) && r.quantity <= |at|
    ensures r.Approve(actor, dcn, candidates, now).Ok? && 0 <= r.quantity ==>
              var r' := r.Approve(actor, dcn, candidates, now).value;
              && |r'.nodes| == r.quantity
              && (forall i | 0 <= i < r.quantity :: r'.nodes[i] == candidates[at[i]].node)
              && r' == r.(nodes := r'.nodes, reviewer := Some(actor.userId), state := Approved,
                          version := r.version + 1)
  {
    at := SuitableInOrder(r, candidates, RemainingDays(r.requestedUntil, now));
    forall j | 0 <= j < |candidates|
      ensures candidates[j].maxLeaseDays >= RemainingDays(r.requestedUntil, now) <==>
                1 <= candidates[j].maxLeaseDays
                && r.requestedUntil - now <= candidates[j].maxLeaseDays * 86_400_000_000
    {
      CoversExactly(r.requestedUntil, now, candidates[j].maxLeaseDays);
    }
  }

  lemma CoversExactly(until: int, now: int, days: int)
    ensures RemainingDays(until, now) <= days <==> 1 <= days && until - now <= days * 86_400_000_000
  {
    if 1 <= days && until - now <= days * DAY { assert RemainingDays(until, now) <= days; }
  }

  /** What an approval chooses: as many nodes as asked for, each from a candidate that is offered and free, and
      whose own lease limit covers all the time that is left. */
  lemma ApprovalChoosesCoveringNodes(r: Request, actor: Actor, dcn: string,
                                     candidates: seq<OfferCandidate>, now: int)
    requires r.quantity >= 0
    requires r.Approve(actor, dcn, candidates, now).Ok?
    ensures var r' := r.Approve(actor, dcn, candidates, now).value;
            && |r'.nodes| == r.quantity
            && forall n | n in r'.nodes ::
                 exists c | c in candidates ::
                   && c.node == n && c.netboxActive && c.offerEnabled && c.available && !c.maintenance
                   && (c.lessee == None || c.lessee == Some("")) && (c.lastError == None || c.lastError == Some(""))
                   && c.profile == r.profile && (r.rack == None || r.rack == Some("") || r.rack == Some(c.rack))
                   && r.requestedUntil - now <= c.maxLeaseDays * 86_400_000_000
  {
    var at := ApprovalExactly(r, actor, dcn, candidates, now);
    var r' := r.Approve(actor, dcn, candidates, now).value;
    forall n | n in r'.nodes
      ensures exists c | c in candidates ::
                && c.node == n && c.netboxActive && c.offerEnabled && c.available && !c.maintenance
                && (c.lessee == None || c.lessee == Some("")) && (c.lastError == None || c.lastError == Some(""))
                && c.profile == r.profile && (r.rack == None || r.rack == Some("") || r.rack == Some(c.rack))
                && r.requestedUntil - now <= c.maxLeaseDays * 86_400_000_000
    {
      var i :| 0 <= i < |r'.nodes| && r'.nodes[i] == n;
      assert at[i] in at && candidates[at[i]] in candidates;
    }
  }

  // The other decisions, by what they look at and what they write.

  /** A rejection keeps the reason without the blanks around it, and no more than 1000 characters of it. */
  lemma RejectionExactly(r: Request, actor: Actor, dcn: string, text: string) returns (i: nat, j: nat)
    ensures i <= j <= |text|
    ensures forall k | 0 <= k < |text| && !(i <= k < j) :: IsSpace(text[k])
    ensures i < j ==> !IsSpace(text[i]) && !IsSpace(text[j - 1])
    ensures r.Reject(actor, dcn, text)
            == if actor.projectId == dcn && "baremetal_admin" in actor.roles
                  && (r.state == Submitted || r.state == Reviewing) && i < j
               then Ok(r.(state := Rejected, reviewer := Some(actor.userId),
                          reason := Some(if j - i <= 1000 then text[i..j] else text[i..i + 1000]),
                          version := r.version + 1))
               else Err(DomainError)
  {
    i, j := StripIsTrim(text);
    assert j - i > 1000 ==> text[i..j][..1000] == text[i..i + 1000];
  }

  lemma CancellationExactly(r: Request, actor: Actor)
    ensures r.Cancel(actor)
            == if actor.projectId == r.projectId && (r.state == Submitted || r.state == Reviewing)
               then Ok(r.(state := Cancelled, version := r.version + 1)) else Err(DomainError)
  {
  }

  lemma ReturnRequestExactly(r: Request, actor: Actor, dcn: string)
    ensures r.RequestReturn(actor, dcn)
            == if (actor.projectId == r.projectId || (actor.projectId == dcn && "baremetal_admin" in actor.roles))
                  && r.state == Leased
               then Ok(r.(state := ReturnRequested, version := r.version + 1)) else Err(DomainError)
  {
  }

  lemma QuarantineExactly(r: Request, text: string)
    ensures r.MarkError(text)
            == if r.state in {Returned, Rejected, Cancelled} then Err(DomainError)
               else Ok(r.(state := Errored, reason := Some(if |text| <= 1000 then text else text[..1000]),
                          version := r.version + 1))
  {
  }

  /** The request as the service holds it: an object that its methods change in place. */
  class AccessRequest {
    const id: string
    const projectId: string
    const userId: string
    const profile: string
    const quantity: int
    const purpose: string
    const requestedUntil: int
    const rack: Option<string>
    var state: RequestState
    var nodes: seq<string>
    var reviewer: Option<string>
    var reason: Option<string>
    var version: int

    function View(): Request
      reads this
    {
      Request(id, projectId, userId, profile, quantity, purpose, requestedUntil, rack,
              state, nodes, reviewer, reason, version)
    }

    constructor (row: Request)
      ensures View() == row
    {
      id, projectId, userId, profile, quantity := row.id, row.projectId, row.userId, row.profile, row.quantity;
      purpose, requestedUntil, rack := row.purpose, row.requestedUntil, row.rack;
      state, nodes, reviewer, reason, version := row.state, row.nodes, row.reviewer, row.reason, row.version;
    }

    /** What a method that may raise leaves behind: the new value, or the old one and the error. */
    ghost predicate Becomes(was: Request, outcome: Result<Request>, error: Option<Error>)
      reads this
    {
      match outcome
      case Ok(r) => error.None? && View() == r
      case Err(e) => error == Some(e) && View() == was
    }

    method Approve(actor: Actor, dcn: string, candidates: seq<OfferCandidate>, now: int)
      returns (error: Option<Error>)
      modifies this
      ensures Becomes(old(View()), old(View()).Approve(actor, dcn, candidates, now), error)
      ensures error.None? ==>
                && actor.projectId == dcn && "baremetal_admin" in actor.roles
                && (old(state) == Submitted || old(state) == Reviewing)
                && state == Approved && version == old(version) + 1 && reviewer == Some(actor.userId)
                && reason == old(reason)
      ensures error.None? && 0 <= quantity ==>
                && |nodes| == quantity
                && forall n | n in nodes ::
                     exists c | c in candidates ::
                       && c.node == n && c.netboxActive && c.offerEnabled && c.available && !c.maintenance
                       && (c.lessee == None || c.lessee == Some(""))
                       && (c.lastError == None || c.lastError == Some(""))
                       && c.profile == profile && (rack == None || rack == Some("") || rack == Some(c.rack))
                       && requestedUntil - now <= c.maxLeaseDays * 86_400_000_000
      ensures error.Some? ==> error == Some(DomainError) && View() == old(View())
    {
      if !actor.IsAdmin(dcn) { return Some(DomainError); }
      if state != Submitted && state != Reviewing { return Some(DomainError); }
      var days := RemainingDays(requestedUntil, now);
      var eligible := [];
      ghost var r := View();
      for i := 0 to |candidates|
        invariant eligible == r.Suitable(candidates[..i], days)
      {
        assert candidates[..i + 1][..i] == candidates[..i];
        var c := candidates[i];
        if c.Eligible() && c.profile == profile && c.maxLeaseDays >= days
           && (!Truthy(rack) || c.rack == rack.value)
        {
          eligible := eligible + [c];
        }
      }
      assert candidates[..|candidates|] == candidates;
      if |eligible| < quantity { return Some(DomainError); }
      if 0 <= quantity { ApprovalChoosesCoveringNodes(r, actor, dcn, candidates, now); }
      nodes := NodesOf(TakeFirst(eligible, quantity));
      reviewer := Some(actor.userId);
      state := Approved;
      version := version + 1;
      return None;
    }

    method Reject(actor: Actor, dcn: string, text: string) returns (error: Option<Error>)
      modifies this
      ensures Becomes(old(View()), old(View()).Reject(actor, dcn, text), error)
      ensures error.None? <==>
                && actor.projectId == dcn && "baremetal_admin" in actor.roles
                && (old(state) == Submitted || old(state) == Reviewing)
                && exists c | c in text :: !IsSpace(c)
      ensures error.None? ==>
                && state == Rejected && version == old(version) + 1 && reviewer == Some(actor.userId)
                && nodes == old(nodes) && reason.Some? && 1 <= |reason.value| <= 1000
                && exists i: nat :: i <= |text| && reason.value <= text[i..]
      ensures error.Some? ==> error == Some(DomainError) && View() == old(View())
    {
      if !actor.IsAdmin(dcn) { return Some(DomainError); }
      if state != Submitted && state != Reviewing { return Some(DomainError); }
      ghost var i, j := StripIsTrim(text);
      if Strip(text) == "" { return Some(DomainError); }
      assert text[i] in text && text[i..j] <= text[i..];
      state := Rejected;
      reviewer := Some(actor.userId);
      reason := Some(Truncate(Strip(text)));
      version := version + 1;
      return None;
    }

    method Cancel(actor: Actor) returns (error: Option<Error>)
      modifies this
      ensures Becomes(old(View()), old(View()).Cancel(actor), error)
      ensures error.None? <==> actor.projectId == projectId && (old(state) == Submitted || old(state) == Reviewing)
      ensures View() == if error.None? then old(View()).(state := Cancelled, version := old(version) + 1)
                        else old(View())
    {
      if actor.projectId != projectId { return Some(DomainError); }
      if state != Submitted && state != Reviewing { return Some(DomainError); }
      state := Cancelled;
      version := version + 1;
      return None;
    }

    method Transition(from: RequestState, to: RequestState) returns (error: Option<Error>)
      modifies this
      ensures Becomes(old(View()), old(View()).Transition(from, to), error)
      ensures error == if old(state) == from then None else Some(DomainError)
      ensures View() == if old(state) == from then old(View()).(state := to, version := old(version) + 1)
                        else old(View())
    {
      if state != from { return Some(DomainError); }
      state := to;
      version := version + 1;
      return None;
    }

    method RequestReturn(actor: Actor, dcn: string) returns (error: Option<Error>)
      modifies this
      ensures Becomes(old(View()), old(View()).RequestReturn(actor, dcn), error)
      ensures error.None? <==>
                && (actor.projectId == projectId || (actor.projectId == dcn && "baremetal_admin" in actor.roles))
                && old(state) == Leased
      ensures View() == if error.None? then old(View()).(state := ReturnRequested, version := old(version) + 1)
                        else old(View())
    {
      if actor.projectId != projectId && !actor.IsAdmin(dcn) { return Some(DomainError); }
      error := Transition(Leased, ReturnRequested);
    }

    method MarkError(text: string) returns (error: Option<Error>)
      modifies this
      ensures Becomes(old(View()), old(View()).MarkError(text), error)
      ensures error.None? <==> old(state) !in {Returned, Rejected, Cancelled}
      ensures View() == if error.Some? then old(View())
                        else old(View()).(state := Errored, version := old(version) + 1,
                                          reason := Some(if |text| <= 1000 then text else text[..1000]))
    {
      if state == Returned || state == Rejected || state == Cancelled { return Some(DomainError); }
      state := Errored;
      reason := Some(Truncate(text));
      version := version + 1;
      return None;
    }
  }
}
