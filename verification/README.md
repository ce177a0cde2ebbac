# Bare metal leases: a verified model

The access service leases bare metal nodes to projects. A request is approved (nodes are chosen and
reserved), allocated (each node gets the project as Ironic lessee), used (deploy and power operations),
and returned (each node is cleaned, then cleared, then its reservation goes). Every call is a chain of
awaited steps: read a copy of the request, change it, write it back if its version is still the one read,
call Ironic node by node, write again. Many calls interleave; each may fail or die at any step.

The project models that service and proves what holds in every run of it. Two smaller parts stand beside it:
the offer list, and the reconciler between NetBox and Ironic.

## How it is built

| file | content |
|---|---|
| `Domain.dfy` | the request object and its transitions, the choice of nodes at approval |
| `Tables.dfy`, `Store.dfy` | the six tables as a value, and the store that changes them in place with rollback |
| `Ironic.dfy`, `Runtime.dfy` | nodes, the guards of the runtime calls, manual cleaning as a conversation with Ironic |
| `Protocol.dfy` | the transition system: store, fleet, any number of tasks in flight; a run is any sequence of steps |
| `Ledger.dfy`, `Invariant.dfy`, `Preservation.dfy`, `Steps.dfy`, `Runs.dfy` | the inductive invariant and its proof, step by step |
| `Theorems.dfy`, `Ownership.dfy`, `OperationTheorems.dfy`, `ReturnRace.dfy`, `AtomicRuns.dfy`, `Stranded.dfy` | the promises, for every run |
| `Reaching.dfy` | runs that reach the states spoken of: a lease, a lost race, a stranded operation |
| `Coordinator.dfy` | the coordinator's own code, loops and failure paths, with other tasks interleaved at each await |
| `Offers.dfy` | the inventory, the offer list, and offers against approval |
| `Reconcile.dfy` | the reconciler as loops over both systems, and its fixed point |
| `Base.dfy`, `Order.dfy` | optional values and results, sums over maps, the order of strings |

A step of the protocol is one store transaction or one runtime call of one task, with the local work before it,
or something the environment does: a new request, a node that changes its condition or appears, a task that dies,
a restart that drops every task. Within a step Ironic may refuse, fail before or after taking effect, or succeed.
`Coordinator.dfy` closes the gap to the code: each of its methods is shown to take only steps of the protocol, so
the theorems about runs hold of it. A method also tells at which moments of the run it read and wrote, and its outcome
is fixed, in both directions, by the tables at those moments; a call that raises before its first save has written
nothing. Between its moments only others take steps, and it begins nothing but what it was called for. With `alone` no other task is scheduled and the moments are all the state at the call. What the inventory and
the clock answer are parameters.

## What is assumed

- The uuid of a new request or operation is fresh (an id in use makes the insertion fail); in the reconciler a uuid that is not new ends the run with an error. Ironic's uuids are not empty.
- The store starts empty; no node has a lessee and none was used by a tenant. Nobody but the service writes owner or lessee. Nodes may appear in Ironic, but none disappears: a lease would lose a node that its request still lists.
- Transactions are serialised, as with `BEGIN IMMEDIATE` on SQLite (`access_store.py:373`).
- A runtime call is one atomic step. A failed assignment or clearing may have changed the lessee or not, but only when its guard passed. A failed deployment leaves the node as it was or not available.
- "Dirty" is a ghost fact: assignment and deployment set it, only a completed `return_and_clean` takes it away. A dirty node that is not available becomes available only through `return_and_clean`.
- `complete_return` runs once, as the continuation of the `begin_return` that succeeded (`access_service.py:69-72`, `access_api.py:230-231`).
- Foreign keys are not enforced: the pragma is per connection and `_connect` does not repeat it (`access_store.py:18`, `access_store.py:382-387`).

## What is not true of the code

- *No operation is active while its lease is returned.* `begin_return` checks and saves in two transactions, and a queueing inserts without looking at the request again. `ReturnRace.RaceCanBeLost` gives the interleaving, from every state with an idle lease; `ReturnRace.SettledExactlyWithoutRaces` says which steps break the property, in both directions; `AtomicRuns` shows that scheduling each of the two in one go is enough.
- *An operation is recorded as succeeded only when its runtime call returned.* An exception with empty text is recorded as a success (`OperationTheorems.RecordedOutcome`, `OperationTheorems.SilentFailureIsRecordedAsSuccess`).
- *The candidates of a profile are the filtered inventory.* They are, except when the empty profile is asked for and a device has none at all (`Offers.CandidatesAreTheFilteredList`); the pattern of a request admits no empty profile (`access_api.py:22`), so an offer for devices without a profile cannot be taken up.
- *One reconcile run settles the site.* A discovered device lacks the lessee field, so the next run patches it. `Reconcile.OneRunSettles` has the exact condition, on the site and Ironic's answers: every node has a device, and each device that a node is created for mirrors that node already.
- *A queueing that raises leaves nothing behind.* Its operation is in the table before the audit entry is written, and that fails exactly when the request is no longer leased (`Stranded.QueueingRaisesExactly`, reached by `Stranded.QueueingCanBeStranded` and `Reaching.RaceIsReached`). The operation then stays queued, and its node refuses other submissions, until something starts that very operation or the process restarts (`Stranded.QueuedExactlyUntilStarted`, `Stranded.StrandedNodeRefuses`).
- *A call that died is resumed, or another takes its request over.* A request left in approved, allocating, return_requested or cleaning without its owner is never written again (`Ownership.OrphansAreFrozen`).

## Model

| member | source | states |
|---|---|---|
| Domain.RemainingDays | netbox_ironic_controller/access_domain.py:102 | the least whole number of days, at least one, that covers the time left |
| Domain.RolesExactly | netbox_ironic_controller/access_domain.py:35-50 | who may request, operate and administer, by domain, project and role names |
| Domain.SuitableMembers | netbox_ironic_controller/access_domain.py:103-108 | the selection keeps exactly the candidates that are active and offered in NetBox, available without maintenance, lessee or error, of the profile and rack asked for, and whose lease limit covers the days left |
| Domain.ApprovalChoosesCoveringNodes | netbox_ironic_controller/access_domain.py:98-114 | an approval takes as many nodes as asked for, each from a candidate that is active, offered, available, without maintenance, lessee or error, and whose own limit covers all the time left |
| Domain.ApprovalExactly | netbox_ironic_controller/access_domain.py:98-114 | the places of the candidates that may be chosen, by their fields; an approval passes exactly for an administrator, an undecided request and enough such places, and takes the first of them in the order offered |
| Domain.RejectionExactly | netbox_ironic_controller/access_domain.py:116-125 | the rejected value: the reason is the text between its blanks, cut at 1000, with the reviewer; or a refusal |
| Domain.CancellationExactly | netbox_ironic_controller/access_domain.py:127-133 | the cancelled value, or a refusal |
| Domain.ReturnRequestExactly | netbox_ironic_controller/access_domain.py:141-145 | who may return what, and the value then |
| Domain.QuarantineExactly | netbox_ironic_controller/access_domain.py:153-158 | the quarantined value from every state that is not terminal |
| Domain.StripIsTrim | netbox_ironic_controller/access_domain.py:120-124 | stripping cuts off blanks at both ends and nothing else, and leaves none there |
| Domain.AccessRequest.Approve | netbox_ironic_controller/access_domain.py:98-114 | returns only for an administrator and an undecided request; then the state, reviewer and version are written, and each node comes from a candidate that passes the same tests, field by field; otherwise it raises and the object is unchanged |
| Domain.AccessRequest.Reject | netbox_ironic_controller/access_domain.py:116-125 | returns exactly for an administrator, an undecided request and a reason that is not blank; the reviewer and a reason of at most 1000 characters of the text are kept |
| Domain.AccessRequest.Cancel | netbox_ironic_controller/access_domain.py:127-133 | returns exactly for the requester's project and an undecided request |
| Domain.AccessRequest.Transition | netbox_ironic_controller/access_domain.py:164-168 | moves exactly from the expected state, one version on, and changes nothing else |
| Domain.AccessRequest.RequestReturn | netbox_ironic_controller/access_domain.py:141-145 | returns exactly for the requester's project or an administrator, from a lease |
| Domain.AccessRequest.MarkError | netbox_ironic_controller/access_domain.py:153-158 | quarantines from every state but returned, rejected and cancelled, with at most 1000 characters of the text |
| Store.AccessStore.constructor | netbox_ironic_controller/access_store.py:128-142 | opening the file fails every operation that was queued or running, with the restart text, and keeps all other rows and tables |
| Store.AccessStore.CreateIdempotent | netbox_ironic_controller/access_store.py:147-173 | a bound key answers with its request and changes nothing; otherwise row, audit event and key, or nothing |
| Store.AccessStore.Get | netbox_ironic_controller/access_store.py:175-180 | a fresh object equal to the row, or not found |
| Store.AccessStore.ListAll | netbox_ironic_controller/access_store.py:189-192 | every row once, in strictly ascending order of id |
| Order.LeIsLexicographic | netbox_ironic_controller/access_store.py:189-192 | the order of ids: a prefix comes first, else the lower code point at the first difference |
| Store.AccessStore.InsertReservations | netbox_ironic_controller/access_store.py:208-215 | all nodes are inserted if and only if they are distinct and none is reserved; a conflict leaves exactly the nodes before it in the table |
| Store.AccessStore.SaveWithReservations | netbox_ironic_controller/access_store.py:198-224 | succeeds exactly when the row exists at the version and the nodes are distinct and free; otherwise the whole store is as before |
| Store.AccessStore.Save | netbox_ironic_controller/access_store.py:226-247 | succeeds exactly at the expected version; row, released reservations and audit event, or nothing |
| Store.AccessStore.RecordAction | netbox_ironic_controller/access_store.py:256-267 | an audit event without a change of state, exactly at the version of the copy |
| Store.AccessStore.CreateOperationIdempotent | netbox_ironic_controller/access_store.py:272-309 | a bound key answers with its row exactly if request, node and payload agree and refuses otherwise; a node with a queued or running operation refuses; otherwise row and key, or an integrity error for an id in use |
| Store.AccessStore.StartOperation | netbox_ironic_controller/access_store.py:337-346 | only a queued operation starts |
| Store.AccessStore.FinishOperation | netbox_ironic_controller/access_store.py:348-358 | only a running operation finishes; failed if and only if the error text is not empty, and the text is cut at 1000 |
| Runtime.LeaseRuntime.AssignLessee | netbox_ironic_controller/sync.py:130-138 | returns only for a node of the operator that is available without maintenance or error and has no other lessee; the lessee is all that changes, and only then |
| Runtime.LeaseRuntime.ClearLessee | netbox_ironic_controller/sync.py:187-191 | returns only for a node that is available without error; the lessee is all that changes, and only then |
| Runtime.LeaseRuntime.Deploy | netbox_ironic_controller/sync.py:193-215 | returns only for an available node leased to the project without maintenance or error; otherwise the fleet is as before; a node it touched is dirty and not available |
| Runtime.LeaseRuntime.SetPower | netbox_ironic_controller/sync.py:217-231 | returns only for one of the five targets and an active node whose owner is the operator and whose lessee is the project, without maintenance or error; otherwise the fleet is as before and an error comes back |
| ManualCleaning.Connection.ReturnAndClean | netbox_ironic_controller/sync.py:160-185 | against any answers: it returns normally if and only if the whole script was played with every observation good, that is manage, clean, provide, preceded by deleted exactly from active, ending available; a bad observation is the last |
| ManualCleaning.GoodExactly | netbox_ironic_controller/sync.py:160-185 | the answers that let the conversation go on, by provision state and error |
| ManualCleaning.CleanedMeansFullScript | netbox_ironic_controller/sync.py:160-185 | a completed cleaning is manage, clean with the given steps, provide, preceded by deleted exactly from active; each is answered by the provision state it is meant to reach, without error, and the last one is available |
| ManualCleaning.CleanedCompletes | netbox_ironic_controller/access_inventory.py:99-102 | such a conversation is what the fleet calls a completed cleaning |
| Steps.ApplyKeepsInv | netbox_ironic_controller/access_service.py:35-204 | every step of every task and of the environment keeps the invariant of tables, copies and fleet |
| Steps.ReachableInv | netbox_ironic_controller/access_service.py:35-204 | so the invariant holds after every run |
| Theorems.LesseeHasReservation | netbox_ironic_controller/access_service.py:35-114 | a node with lessee p is reserved for p, by a request of p that lists it and is allocating, leased, in return, cleaning or in error |
| Theorems.LeasedMeansAssigned | netbox_ironic_controller/access_service.py:49-67 | a leased request has as many distinct nodes as it asked for, each reserved for it and assigned to its project |
| Theorems.FreeNodesAreClean | netbox_ironic_controller/access_service.py:92-114 | a node that is unreserved, or held by a request only just approved, has no lessee and is not dirty |
| Theorems.VisibleExactly | netbox_ironic_controller/access_api.py:99-107 | the nodes of a view: to an administrator always, to the request's project while leased, in return, in cleaning or in error, to others never |
| Theorems.LesseeSeesItsNodes | netbox_ironic_controller/access_api.py:99-107 | in every run the project of a lease sees as many distinct nodes as it asked for and is the lessee of each |
| Theorems.DirtGoesOnlyByCleaning | netbox_ironic_controller/sync.py:160-185 | a node stops being dirty only by a completed cleaning of it, from active or available to available without error |
| Theorems.LesseeMakesDirty | netbox_ironic_controller/sync.py:130-138 | only a task of a request that lists the node changes its lessee, and a node that gets one is dirty |
| Theorems.ViewsAreDisjoint | netbox_ironic_controller/access_api.py:99-107 | a node that a non-admin sees is reserved for the actor's project; two projects never see the same node |
| Theorems.ReservationsAreExact | netbox_ironic_controller/access_store.py:198-247 | the reservations are the disjoint union of the node lists of the holding requests, as many as the sum of their quantities |
| Theorems.NoLostUpdate | netbox_ironic_controller/access_store.py:226-247 | a copy at the version of the row is the row |
| Theorems.StepsAreTransitions | netbox_ironic_controller/access_domain.py:94-168 | any step leaves a row alone or takes it one legal edge further; its contract never changes |
| Theorems.RowsOnlyMoveForward | netbox_ironic_controller/access_store.py:226-247 | over any run the contract stays and the version never falls |
| Theorems.TerminalIsFinal | netbox_ironic_controller/access_domain.py:153-168 | a rejected, cancelled, returned or quarantined request is never written again by the service |
| Ownership.OnlyTheOwnerWrites | netbox_ironic_controller/access_service.py:47-114 | a request in flight with one owner is written by nobody else: over every run without the owner's own steps the row stays, through restarts and the owner's death too |
| Ownership.TheOwnerIsAlone | netbox_ironic_controller/access_service.py:47-114 | so the row stays the copy that the owner carries |
| Ownership.OrphansAreFrozen | netbox_ironic_controller/access_service.py:47-114 | a request in flight without an owner is never written again by any run, and keeps its nodes reserved |
| Ownership.RestartFreezes | netbox_ironic_controller/access_store.py:128-142 | that is what a restart leaves of every allocation and return it interrupts |
| Ownership.AbandonedIsFrozen | netbox_ironic_controller/access_service.py:47-114 | and the death of the owning call alone |
| Theorems.OwnerSavesSucceed | netbox_ironic_controller/access_service.py:82-114 | the saves of such a task never meet a version conflict |
| Theorems.OneDecision | netbox_ironic_controller/access_service.py:116-136 | no two recorded transitions of a request start from one version, so one of several racing decisions takes effect |
| Theorems.VersionCountsTransitions | netbox_ironic_controller/access_store.py:425-441 | in a chained trail the version counts the state-changing events |
| Theorems.TrailReplays | netbox_ironic_controller/access_store.py:425-441 | the trail of every run is a chain of lawful events ending in the current state, version, nodes and project of the row, with at most six transitions and the version fixed by the state |
| Theorems.DecisionsAreAuthorised | netbox_ironic_controller/access_service.py:35-136 | approvals and rejections carry the operator's project, cancellations the request's, returns one of the two |
| OperationTheorems.AtMostOneRuntimeCall | netbox_ironic_controller/access_service.py:187-204 | an operation causes at most one runtime call over any run with restarts; a node has at most one active operation |
| OperationTheorems.CallsAreCounted | netbox_ironic_controller/access_service.py:187-204 | what is counted: the continuation of a processing that is about to deploy or switch, and no other step |
| OperationTheorems.OnlyCallsTouchTheFleet | netbox_ironic_controller/access_service.py:187-204 | the nodes change only by the call of a processing, by a lease task that assigns, cleans or clears, or by themselves |
| OperationTheorems.OperationsRunOnTheirLease | netbox_ironic_controller/sync.py:193-231 | in every run the runtime call of an operation returns or changes anything only on a node whose lessee is then its project, reserved for that project, in the state the command needs |
| OperationTheorems.OperationsBelongToTheirProject | netbox_ironic_controller/access_service.py:167-184 | an operation and its keys carry the project of its request |
| OperationTheorems.OperationsProgress | netbox_ironic_controller/access_store.py:337-358 | an operation only moves from queued to running to an end, or is failed by a restart |
| OperationTheorems.FinishedIsFinal | netbox_ironic_controller/access_store.py:337-358 | a finished operation never changes again |
| OperationTheorems.OperationsKeepTheirContent | netbox_ironic_controller/access_store.py:337-358 | over any run an operation keeps its request, project, user, node and command |
| OperationTheorems.RecordedOutcome | netbox_ironic_controller/access_service.py:187-204 | recorded as succeeded if and only if the runtime call returned or its exception had no text |
| OperationTheorems.SilentFailureIsRecordedAsSuccess | netbox_ironic_controller/access_service.py:202 | a deployment that failed without text ends as succeeded |
| OperationTheorems.RunKeepsKeys | netbox_ironic_controller/access_store.py:304-308 | a key once bound is bound to the same row for good |
| OperationTheorems.CreationIsIdempotent | netbox_ironic_controller/access_store.py:147-173 | a creation under a bound key changes nothing at any later time; the answer is of the same project and contract |
| OperationTheorems.SubmissionIsIdempotent | netbox_ironic_controller/access_store.py:272-309 | at any later time a bound key answers with the operation bound first, as it then is, if and only if request, node and payload are those it was bound with, and refuses otherwise; no table changes |
| OperationTheorems.RetryIsAnswered | netbox_ironic_controller/access_store.py:272-309 | after the insertion of an operation under a key, a submission that differs in id and user only is answered with that operation at any later time of the run |
| OperationTheorems.KindsExactly | netbox_ironic_controller/access_service.py:148-165 | the operation names that keys are bound under |
| ReturnRace.SettledExactlyWithoutRaces | netbox_ironic_controller/access_service.py:74-90 | a step keeps active operations on leased nodes of their own request if and only if it does not lose the race |
| ReturnRace.RaceFreeRunsStaySettled | netbox_ironic_controller/access_service.py:74-90 | so does every run without a lost race |
| ReturnRace.SettledAllAlongExactly | netbox_ironic_controller/access_service.py:74-90 | active operations stay on their leases all along a run if and only if no step of it loses the race |
| ReturnRace.NoOperationWhileReturning | netbox_ironic_controller/access_service.py:77-78 | on such a run a request that is not leased has no active operation |
| ReturnRace.RaceCanBeLost | netbox_ironic_controller/access_service.py:74-90 | from every idle lease six interleaved steps end in cleaning with an operation queued |
| AtomicRuns.AtomicRunsAreRaceFree | netbox_ironic_controller/access_service.py:74-90 | with queueing and the beginning of a return each in one go, no run loses the race |
| AtomicRuns.AtomicRunsKeepOperationsOnLeases | netbox_ironic_controller/access_service.py:148-217 | on those runs every active operation is on a leased node reserved by its request for the same project, and no request in return or cleaning is busy |
| Stranded.QueueingRaisesExactly | netbox_ironic_controller/access_service.py:176-184 | the end of a queueing raises, and no event tells of its operation, if and only if the request is no longer leased; the operation stays |
| Stranded.QueuedExactlyUntilStarted | netbox_ironic_controller/access_store.py:337-346 | over any run a queued operation stays as it is if and only if nothing starts it and the process does not restart |
| Stranded.StrandedNodeRefuses | netbox_ironic_controller/access_store.py:291-296 | as long, every submission for its node that no key answers is refused |
| Stranded.QueueingCanBeStranded | netbox_ironic_controller/access_service.py:148-184 | from every idle lease a return can overtake a queueing, which raises with its operation queued on a node in cleaning |
| Reaching.LeaseIsReached | netbox_ironic_controller/access_service.py:35-67 | six steps lead from every start with an assignable node to a lease of it |
| Reaching.RaceIsReached | netbox_ironic_controller/access_service.py:74-90 | and seven more to the lost race and the stranded operation |
| Coordinator.AccessCoordinator.CreateLeaseRequest | netbox_ironic_controller/access_api.py:129-147 | with others interleaved: who may ask and with which key; exactly one new row with the asker's project and user, the profile, quantity, purpose, rack and deadline asked for, or nothing, when its transaction runs; the answer is the row its key is bound to |
| Coordinator.AccessCoordinator.Approve | netbox_ironic_controller/access_service.py:35-67 | with others interleaved: it takes effect exactly when the request read is at the version, the approval passes and the nodes can be reserved at the save; then it is that approval leased with all nodes assigned, or in error, with the reservations kept; else nothing is written; alone: exactly these rows |
| Coordinator.AccessCoordinator.AssignNodes | netbox_ironic_controller/access_service.py:47-54 | the nodes before the first failure have the lessee, the failing call is the last, and there were no others |
| Coordinator.ApprovableExactly | netbox_ironic_controller/access_service.py:35-46 | when an approval takes effect: the domain allows it, the row is at the version read, and its nodes are distinct and unreserved |
| Coordinator.AccessCoordinator.Reject | netbox_ironic_controller/access_service.py:116-125 | with others interleaved: it succeeds exactly when the request read is at the version and may be rejected and nobody has written it at the save; it writes that row and event, or nothing |
| Coordinator.AccessCoordinator.Cancel | netbox_ironic_controller/access_service.py:127-136 | the same for a cancellation by the request's project |
| Coordinator.AccessCoordinator.BeginReturn | netbox_ironic_controller/access_service.py:74-90 | with others interleaved: it takes the request over, into cleaning, exactly when the request read is a lease at the version and the actor may return it, no operation is active at the check, and nobody has written it at the save; else it ends at that moment with nothing written |
| Coordinator.ReturnLandsExactly | netbox_ironic_controller/access_service.py:74-90 | when a return takes the request over, by the fields of the rows at its three moments |
| Coordinator.AccessCoordinator.CompleteReturn | netbox_ironic_controller/access_service.py:92-114 | never a version conflict: returned with every node free, clean and without lessee, or in error with the reservations kept; a call for a request that is not in cleaning raises and changes nothing |
| Coordinator.AccessCoordinator.ReturnLease | netbox_ironic_controller/access_service.py:69-72 | both together: the same condition decides between ending before the first save with nothing written and ending the lease, returned with every node free or in error with the reservations kept; it begins this return and nothing else; alone exactly one row and its reservations change |
| Coordinator.AccessCoordinator.ExpireLeases | netbox_ironic_controller/access_service.py:138-146 | with others interleaved: the list is exactly the ids of rows that are leased with a deadline not after now, at its moment, in order of id; the call begins the returns of those, one after another, and nothing else; those before a failure are returned, and the failing one has ended with nothing written or is in error with its reservations; alone: exactly these rows and reservations change, and it stops untouched exactly at a lease with an active operation |
| Coordinator.ListingIsDetermined | netbox_ironic_controller/access_store.py:189-192 | the tables at the moment of the listing determine the list: the leased rows with a deadline not after now, ascending |
| Coordinator.QueueingExactly | netbox_ironic_controller/access_service.py:206-217 | who may queue on which node, and the fields of the operation queued |
| Coordinator.AccessCoordinator.QueueOperation | netbox_ironic_controller/access_service.py:148-184 | with others interleaved: it answers as the store does at the insertion for the request read; a call whose own operation is inserted raises exactly when the lease is gone at the end, and leaves the operation; any other writes nothing; alone: the bound operation and no change, or exactly one row and one event |
| Coordinator.AccessCoordinator.ProcessOperation | netbox_ironic_controller/access_service.py:187-204 | with others interleaved: a version conflict exactly when the operation is not queued at the start, with nothing written; else the operation is finished and what is recorded matches the outcome but for empty texts; without its lease at the moment of the call it is recorded as failed |
| Offers.Candidates | netbox_ironic_controller/access_inventory.py:15-42 | the sorted join of known devices that match profile and rack |
| Offers.SortedInOrder | netbox_ironic_controller/access_inventory.py:42 | the sort is a permutation in the order of rack and node |
| Offers.SortedIsStable | netbox_ironic_controller/access_inventory.py:42 | equal keys keep their order |
| Offers.JoinsExactly | netbox_ironic_controller/access_inventory.py:15-42 | which devices take part in the join, and the ten fields of their candidates with the defaults |
| Offers.JoinedInOrder | netbox_ironic_controller/access_inventory.py:15-42 | the join lists those devices' candidates, each once, in the order of the devices |
| Offers.CandidatesAreTheFilteredList | netbox_ironic_controller/access_inventory.py:15-42 | candidates of a profile and rack are the order-preserving filter of the whole list if and only if no device without a profile is missed |
| Offers.Group | netbox_ironic_controller/access_api.py:175-178 | each group is the candidates of its profile and rack that are active, offered, available and without maintenance, lessee or error, in order; none is empty and none is missing |
| Offers.ListOffers | netbox_ironic_controller/access_api.py:171-185 | one offer a group in ascending order of profile and rack; its count is the number of candidates that pass the six tests, and its limit is their least |
| Offers.OffersAddUp | netbox_ironic_controller/access_api.py:171-185 | the counts sum to the number of candidates that pass the six tests |
| Offers.OffersAreHonest | netbox_ironic_controller/access_api.py:171-185 | a request within an offer, approved at any later time on the same inventory, passes the selection with nodes whose limits cover the time left |
| Reconcile.Controller.SyncPorts | netbox_ironic_controller/sync.py:346-356 | exactly the missing addresses become ports, and the count is how many |
| Reconcile.MirrorExactly | netbox_ironic_controller/sync.py:286-293 | the five fields a device shows of its node |
| Reconcile.PendingExactly | netbox_ironic_controller/sync.py:300-318 | which devices get a node and which are skipped, by their fields |
| Reconcile.FoundExactly | netbox_ironic_controller/sync.py:358-383 | the fields and the name of a discovered device; no lessee field |
| Reconcile.Controller.PassKnown | netbox_ironic_controller/sync.py:279-298 | a device on a node shows its power and provision state, maintenance, last error and lessee, and has its ports; the counters say what changed |
| Reconcile.Controller.PassUnknown | netbox_ironic_controller/sync.py:300-328 | a complete device gets a new node, ordered with its name, driver, resource class and BMC data, and its ports; an incomplete one is counted as skipped; it raises, changing nothing, exactly when its secret cannot be read, or when the uuid answered is not new |
| Reconcile.Controller.Reconcile | netbox_ironic_controller/sync.py:272-334 | a run does what the run function says, orders exactly the nodes of the pending devices, and reports exact numbers; an exception leaves the beginning of a run and comes from a secret that cannot be read, a uuid that is not new, or a missing type, site or role for discovered devices |
| Reconcile.RunAchieves | netbox_ironic_controller/sync.py:272-334 | after a completed run every node has a device, every device on a listed node shows its five fields, nothing is left to create, devices and nodes have grown by the reported numbers, and a one-to-one mapping stays so |
| Reconcile.TidyRunSettles | netbox_ironic_controller/sync.py:272-334 | a second run creates and discovers nothing and leaves every device showing the five fields of its node, with all its ports |
| Reconcile.SettledRunChangesNothing | netbox_ironic_controller/sync.py:272-334 | on a settled site a run changes nothing and reports no patch, node, port or device |
| Reconcile.TwoRunsSettle | netbox_ironic_controller/sync.py:272-334 | two completed runs reach a fixed point |
| Reconcile.OneRunSettles | netbox_ironic_controller/sync.py:358-383 | one run settles the site if and only if every node has a device at the start and each pending device mirrors the node that Ironic will answer with |

## Left out

- HTTP routing, payload validation, headers and status codes; Keystone tokens; Kubernetes secrets; NetBox paging; the OpenStack client.
- MariaDB: its isolation, where the select-then-insert checks are not serialised, its restart without recovery of operations, its URL and adapter class.
- JSON and ISO dates: rows and payloads are values with an exact round trip, and times are whole microseconds, not floats.
- Message texts: an exception is one of a few constructors, and the reason stored with a quarantine is the runtime call's text without the prefix the code adds.
- Names of audit actions, which are constructors, and the ids and times of audit events, whose order is the order of insertion.
- The second row count check of the two saves (`access_store.py:222-223`, `access_store.py:243-244`), which cannot fail under serialised transactions.
- `begin_review`, which the coordinator never calls; `reviewing` is a state that no run reaches.
- The listing of requests and operations by project, and `operation_view`: filters over rows.
- The NetBox mirror of the lessee (`access_inventory.py:108-119`): its failure is a runtime call that fails after taking effect; its race with the reconciler's patches is not modelled.
- Image approval and metadata, the validation of clean steps, and the access fixture, a tool outside the service that writes owner and lessee.
- Store migration, custom field bootstrap, configuration and deployment files.
- Liveness: nothing takes a request out of `error`, and nothing resumes a call that died.
- CompleteReturn: with other tasks scheduled it is modelled as the continuation of the return that its own task has begun, the only way the service calls it, and for requests that have ended; alone, any other call is modelled too. A second call for a request in cleaning is not modelled.
- ReturnAndClean: in the fleet it is one atomic step; the conversation with Ironic is modelled apart, in `ManualCleaning`, for a node that nobody else changes meanwhile.
- The properties document of a created node and the credentials read for it: the order of a node carries its name, driver, resource class, address and secret name.
- Reconcile: failures of single NetBox or Ironic requests are left out, and so is the order in which missing nodes are discovered (any order).
