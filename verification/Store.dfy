/** The store: each transaction changes the tables in place and undoes its changes when it raises. */
module Store {
  import opened Base
  import opened Domain
  import opened Tables
  import Order

  function IdsOf(rows: seq<Request>): (ids: seq<string>)
    ensures |ids| == |rows| && forall i | 0 <= i < |rows| :: ids[i] == rows[i].id
  {
    seq(|rows|, i requires 0 <= i < |rows| => rows[i].id)
  }

  class AccessStore {
    var requests: map<string, Request>
    var reservations: map<string, Reservation>
    var audit: seq<AuditEvent>
    var requestKeys: map<RequestKey, string>
    var operations: map<string, Operation>
    var operationKeys: map<OperationKey, string>

    function Contents(): Db
      reads this
    {
      Db(requests, reservations, audit, requestKeys, operations, operationKeys)
    }

    predicate Valid()
      reads this
    {
      Consistent(Contents())
    }

    /** Opening the database file that holds `file`. */
    constructor (file: Db)
      requires Consistent(file)
      ensures Valid() && Contents() == Reopen(file)
      ensures && requests == file.requests && reservations == file.reservations && audit == file.audit
              && requestKeys == file.requestKeys && operationKeys == file.operationKeys
              && operations.Keys == file.operations.Keys
              && forall id | id in operations ::
                   operations[id] == if file.operations[id].state in {Queued, Running}
                                     then file.operations[id].(state := Failed, error := Some(RESTART_ERROR))
                                     else file.operations[id]
    {
      requests, reservations, audit, requestKeys, operationKeys :=
        file.requests, file.reservations, file.audit, file.requestKeys, file.operationKeys;
      operations := map id | id in file.operations ::
        if file.operations[id].Active() then file.operations[id].(state := Failed, error := Some(RESTART_ERROR))
        else file.operations[id];
    }

    /** Put back the tables as they were: the rollback of a transaction. */
    method Rollback(snapshot: Db)
      modifies this
      ensures Contents() == snapshot
    {
      requests, reservations, audit := snapshot.requests, snapshot.reservations, snapshot.audit;
      requestKeys, operations, operationKeys := snapshot.requestKeys, snapshot.operations, snapshot.operationKeys;
    }

    /** What other tasks have committed meanwhile. */
    method Install(db: Db)
      modifies this
      ensures Contents() == db
    {
      requests, reservations, audit := db.requests, db.reservations, db.audit;
      requestKeys, operations, operationKeys := db.requestKeys, db.operations, db.operationKeys;
    }

    method AppendAudit(before: Option<Request>, after: Request, user: string, project: string, action: Action)
      modifies this`audit
      ensures audit == old(audit) + [Event(before, after, user, project, action)]
      ensures audit == old(audit) + [AuditEvent(after.id, user, project, action,
                if before.None? then None
                else Some(PublicState(before.value.state, before.value.version, before.value.nodes,
                                      before.value.projectId)),
                PublicState(after.state, after.version, after.nodes, after.projectId))]
    {
      audit := audit + [Event(before, after, user, project, action)];
    }

    method CreateIdempotent(request: AccessRequest, key: Option<string>) returns (result: Result<AccessRequest>)
      requires Valid()
      modifies this
      ensures Valid()
      ensures var db, r := old(Contents()), request.View();
              if RequestKeyBound(db, r.projectId, key) then
                && Contents() == db && result.Ok? && fresh(result.value)
                && result.value.View() == db.requests[db.requestKeys[RequestKey(r.projectId, key.value)]]
              else if CanCreate(db, r) then
                Contents() == Create(db, r, key) && result == Ok(request)
              else
                Contents() == db && result == Err(IntegrityError)
      ensures key.Some? && key.value != "" && RequestKey(request.projectId, key.value) in old(requestKeys) ==>
                && Contents() == old(Contents()) && result.Ok?
                && result.value.View() == old(requests)[old(requestKeys)[RequestKey(request.projectId, key.value)]]
      ensures !(key.Some? && key.value != "" && RequestKey(request.projectId, key.value) in old(requestKeys)) ==>
                if request.id in old(requests) || request.quantity <= 0 then
                  result == Err(IntegrityError) && Contents() == old(Contents())
                else
                  && result == Ok(request) && requests == old(requests)[request.id := request.View()]
                  && audit == old(audit) + [AuditEvent(request.id, request.userId, request.projectId, Created, None,
                       PublicState(request.state, request.version, request.nodes, request.projectId))]
                  && requestKeys == (if key == None || key == Some("") then old(requestKeys)
                                     else old(requestKeys)[RequestKey(request.projectId, key.value) := request.id])
                  && reservations == old(reservations)
                  && operations == old(operations) && operationKeys == old(operationKeys)
    {
      var before := Contents();
      if Truthy(key) && RequestKey(request.projectId, key.value) in requestKeys {
        var existing := new AccessRequest(requests[requestKeys[RequestKey(request.projectId, key.value)]]);
        return Ok(existing);
      }
      if request.id in requests || request.quantity <= 0 {
        Rollback(before);
        return Err(IntegrityError);
      }
      requests := requests[request.id := request.View()];
      AppendAudit(None, request.View(), request.userId, request.projectId, Created);
      if Truthy(key) {
        requestKeys := requestKeys[RequestKey(request.projectId, key.value) := request.id];
      }
      return Ok(request);
    }

    method Get(id: string) returns (result: Result<AccessRequest>)
      ensures id in requests ==> result.Ok? && fresh(result.value) && result.value.View() == requests[id]
      ensures id !in requests ==> result == Err(NotFound)
    {
      if id !in requests { return Err(NotFound); }
      var item := new AccessRequest(requests[id]);
      return Ok(item);
    }

    /** All requests, in the order of their ids. */
    method ListAll() returns (rows: seq<Request>)
      requires Valid()
      ensures Order.Ascending(IdsOf(rows))
      ensures forall id :: id in IdsOf(rows) <==> id in requests
      ensures forall r | r in rows :: r.id in requests && requests[r.id] == r
    {
      rows := [];
      var rest := requests.Keys;
      while rest != {}
        invariant rest <= requests.Keys
        invariant Order.Ascending(IdsOf(rows))
        invariant forall id :: id in IdsOf(rows) <==> id in requests.Keys - rest
        invariant forall r | r in rows :: r.id in requests && requests[r.id] == r
        invariant forall a, b | a in IdsOf(rows) && b in rest :: Order.Le(a, b)
        decreases |rest|
      {
        ghost var least := Order.Least(rest);
        var id :| id in rest && forall x | x in rest :: Order.Le(id, x);
        assert IdsOf(rows + [requests[id]]) == IdsOf(rows) + [id];
        rows := rows + [requests[id]];
        rest := rest - {id};
      }
    }

    /** Insert one reservation row a node. A primary-key conflict stops the loop half way,
        with the `inserted` rows before it still in the table. */
    method InsertReservations(request: AccessRequest) returns (ok: bool, ghost inserted: nat)
      modifies this`reservations
      ensures inserted <= |request.nodes| && Distinct(request.nodes[..inserted])
      ensures forall n | n in request.nodes[..inserted] :: n !in old(reservations)
      ensures reservations == old(reservations)
                              + map n | n in request.nodes[..inserted] :: Reservation(request.id, request.projectId)
      ensures if ok then inserted == |request.nodes|
              else inserted < |request.nodes| && request.nodes[inserted] in reservations
      ensures ok <==> Distinct(request.nodes) && forall n | n in request.nodes :: n !in old(reservations)
      ensures ok ==> reservations == old(reservations) + ReservationsFor(request.View())
    {
      var entry := Reservation(request.id, request.projectId);
      ghost var before := reservations;
      for i := 0 to |request.nodes|
        invariant reservations == before + map n | n in request.nodes[..i] :: entry
        invariant forall j | 0 <= j < i :: request.nodes[j] !in before
        invariant Distinct(request.nodes[..i])
      {
        var node := request.nodes[i];
        assert request.nodes[..i + 1] == request.nodes[..i] + [node];
        if node in reservations {
          if node in request.nodes[..i] {
            var j :| 0 <= j < i && request.nodes[j] == node;
          }
          return false, i;
        }
        reservations := reservations[node := entry];
      }
      assert request.nodes[..|request.nodes|] == request.nodes;
      return true, |request.nodes|;
    }

    /** All or nothing: a conflict takes back the reservations inserted before it. */
    method SaveWithReservations(request: AccessRequest, expected: int, user: string, project: string, action: Action)
      returns (error: Option<Error>)
      requires Valid()
      modifies this
      ensures Valid()
      ensures error.None? <==>
                && request.id in old(requests) && old(requests)[request.id].version == expected
                && Distinct(request.nodes) && forall n | n in request.nodes :: n !in old(reservations)
      ensures error.None? ==>
                && requests == old(requests)[request.id := old(requests)[request.id].(
                     state := request.state, nodes := request.nodes, reviewer := request.reviewer,
                     reason := request.reason, version := request.version)]
                && reservations == old(reservations)
                                   + (map n | n in request.nodes :: Reservation(request.id, request.projectId))
                && audit == old(audit) + [AuditEvent(request.id, user, project, action,
                     Some(PublicState(old(requests)[request.id].state, old(requests)[request.id].version,
                                      old(requests)[request.id].nodes, old(requests)[request.id].projectId)),
                     PublicState(request.state, request.version, request.nodes, request.projectId))]
                && requestKeys == old(requestKeys)
                && operations == old(operations) && operationKeys == old(operationKeys)
      ensures error.None? <==> CanReserve(old(Contents()), request.View(), expected)
      ensures error.None? ==> Contents() == Reserve(old(Contents()), request.View(), user, project, action)
      ensures error.Some? ==> Contents() == old(Contents())
      ensures error.Some? ==> error.value == if AtVersion(old(Contents()), request.id, expected)
                                             then NodeAlreadyReserved else StaleError(old(Contents()), request.id)
      ensures error.Some? ==> error.value == if request.id !in old(requests) then NotFound
                                             else if old(requests)[request.id].version != expected then VersionConflict
                                             else NodeAlreadyReserved
    {
      var before := Contents();
      if request.id !in requests { return Some(NotFound); }
      var row := requests[request.id];
      if row.version != expected { return Some(VersionConflict); }
      var ok, inserted := InsertReservations(request);
      if !ok {
        Rollback(before);
        return Some(NodeAlreadyReserved);
      }
      requests := requests[request.id := Decided(row, request.View())];
      AppendAudit(Some(row), request.View(), user, project, action);
      return None;
    }

    method Save(request: AccessRequest, expected: int, user: string, project: string, action: Action, release: bool)
      returns (error: Option<Error>)
      requires Valid()
      modifies this
      ensures Valid()
      ensures error.None? <==> request.id in old(requests) && old(requests)[request.id].version == expected
      ensures error.None? ==>
                && requests == old(requests)[request.id := request.View()]
                && reservations == (if !release then old(reservations)
                                    else map n | n in old(reservations)
                                                 && old(reservations)[n].requestId != request.id ::
                                           old(reservations)[n])
                && audit == old(audit) + [AuditEvent(request.id, user, project, action,
                     Some(PublicState(old(requests)[request.id].state, old(requests)[request.id].version,
                                      old(requests)[request.id].nodes, old(requests)[request.id].projectId)),
                     PublicState(request.state, request.version, request.nodes, request.projectId))]
                && requestKeys == old(requestKeys)
                && operations == old(operations) && operationKeys == old(operationKeys)
      ensures error.None? <==> AtVersion(old(Contents()), request.id, expected)
      ensures error.None? ==> Contents() == Tables.Save(old(Contents()), request.View(), user, project, action, release)
      ensures error.Some? ==> Contents() == old(Contents()) && error == Some(StaleError(old(Contents()), request.id))
      ensures error.Some? ==> error == Some(if request.id in old(requests) then VersionConflict else NotFound)
    {
      if request.id !in requests { return Some(NotFound); }
      var row := requests[request.id];
      if row.version != expected { return Some(VersionConflict); }
      requests := requests[request.id := request.View()];
      if release {
        reservations := map n | n in reservations && reservations[n].requestId != request.id :: reservations[n];
      }
      AppendAudit(Some(row), request.View(), user, project, action);
      return None;
    }

    method RecordAction(request: AccessRequest, user: string, project: string, action: Action)
      returns (error: Option<Error>)
      requires Valid()
      modifies this
      ensures Valid()
      ensures error.None? <==> request.id in old(requests) && old(requests)[request.id].version == request.version
      ensures error.None? ==>
                && requests == old(requests) && reservations == old(reservations)
                && var row := old(requests)[request.id];
                && var public := PublicState(row.state, row.version, row.nodes, row.projectId);
                && audit == old(audit) + [AuditEvent(row.id, user, project, action, Some(public), public)]
                && requestKeys == old(requestKeys)
                && operations == old(operations) && operationKeys == old(operationKeys)
      ensures error.None? <==> AtVersion(old(Contents()), request.id, request.version)
      ensures error.None? ==> Contents() == Record(old(Contents()), request.id, user, project, action)
      ensures error.Some? ==> Contents() == old(Contents()) && error == Some(StaleError(old(Contents()), request.id))
      ensures error.Some? ==> error == Some(if request.id in old(requests) then VersionConflict else NotFound)
    {
      if request.id !in requests { return Some(NotFound); }
      var current := requests[request.id];
      if current.version != request.version { return Some(VersionConflict); }
      AppendAudit(Some(current), current, user, project, action);
      return None;
    }

    method CreateOperationIdempotent(op: Operation, key: Option<string>) returns (result: Result<Operation>)
      requires Valid()
      modifies this
      ensures Valid()
      ensures Contents() == AfterSubmission(old(Contents()), op, key)
      ensures result == SubmissionAnswer(old(Contents()), op, key)
      ensures key.Some? && key.value != ""
              && OperationKey(op.projectId, op.command.Kind(), key.value) in old(operationKeys) ==>
                var id := old(operationKeys)[OperationKey(op.projectId, op.command.Kind(), key.value)];
                var row := old(operations)[id];
                && Contents() == old(Contents())
                && result == if row.requestId == op.requestId && row.node == op.node && row.command == op.command
                             then Ok(row) else Err(DomainError)
      ensures !(key.Some? && key.value != ""
                && OperationKey(op.projectId, op.command.Kind(), key.value) in old(operationKeys)) ==>
                if exists id :: id in old(operations) && old(operations)[id].node == op.node
                                && old(operations)[id].state in {Queued, Running} then
                  result == Err(DomainError) && Contents() == old(Contents())
                else if op.id in old(operations) then
                  result == Err(IntegrityError) && Contents() == old(Contents())
                else
                  && result == Ok(op) && operations == old(operations)[op.id := op]
                  && operationKeys == (if key == None || key == Some("") then old(operationKeys)
                                       else old(operationKeys)[
                                              OperationKey(op.projectId, op.command.Kind(), key.value) := op.id])
                  && requests == old(requests) && reservations == old(reservations) && audit == old(audit)
                  && requestKeys == old(requestKeys)
    {
      if Truthy(key) && KeyOf(op, key.value) in operationKeys {
        var current := operations[operationKeys[KeyOf(op, key.value)]];
        if current.requestId != op.requestId || current.node != op.node || current.command != op.command {
          return Err(DomainError);
        }
        return Ok(current);
      }
      if exists id | id in operations :: operations[id].node == op.node && operations[id].Active() {
        return Err(DomainError);
      }
      if op.id in operations { return Err(IntegrityError); }
      operations := operations[op.id := op];
      if Truthy(key) {
        operationKeys := operationKeys[KeyOf(op, key.value) := op.id];
      }
      return Ok(op);
    }

    predicate HasActiveOperations(requestId: string): (active: bool)
      reads this
      ensures active <==> exists id :: id in operations && operations[id].requestId == requestId
                                       && operations[id].state in {Queued, Running}
    {
      assert forall id | id in operations :: operations[id].Active() <==> operations[id].state in {Queued, Running};
      RequestBusy(Contents(), requestId)
    }

    method StartOperation(id: string) returns (result: Result<Operation>)
      requires Valid()
      modifies this
      ensures Valid()
      ensures if id in old(operations) && old(operations)[id].state == Queued then
                && operations == old(operations)[id := old(operations)[id].(state := Running)]
                && result == Ok(operations[id])
                && Contents() == old(Contents()).(operations := operations)
              else
                result == Err(VersionConflict) && Contents() == old(Contents())
      ensures if InOperationState(old(Contents()), id, Queued) then
                Contents() == Start(old(Contents()), id) && result == Ok(operations[id])
              else
                Contents() == old(Contents()) && result == Err(VersionConflict)
    {
      if id !in operations || operations[id].state != Queued { return Err(VersionConflict); }
      operations := operations[id := operations[id].(state := Running)];
      return Ok(operations[id]);
    }

    method FinishOperation(id: string, error: Option<string>) returns (result: Result<Operation>)
      requires Valid()
      modifies this
      ensures Valid()
      ensures if id in old(operations) && old(operations)[id].state == Running then
                && operations == old(operations)[id := old(operations)[id].(
                     state := if error == None || error == Some("") then Succeeded else Failed,
                     error := if error == None || error == Some("") then None
                              else if |error.value| <= 1000 then error else Some(error.value[..1000]))]
                && result == Ok(operations[id])
                && Contents() == old(Contents()).(operations := operations)
              else
                result == Err(VersionConflict) && Contents() == old(Contents())
      ensures if InOperationState(old(Contents()), id, Running) then
                Contents() == Finish(old(Contents()), id, error) && result == Ok(operations[id])
              else
                Contents() == old(Contents()) && result == Err(VersionConflict)
    {
      var state := if Truthy(error) then Failed else Succeeded;
      if id !in operations || operations[id].state != Running { return Err(VersionConflict); }
      operations := operations[id := operations[id].(
        state := state, error := if Truthy(error) then Some(Truncate(error.value)) else None)];
      return Ok(operations[id]);
    }
  }
}
