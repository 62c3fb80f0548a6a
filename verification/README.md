# Verified model of the DevOps platform services

A Dafny 4.11 model of the domain layers of the platform's Python services, with proofs about their state
machines and graph algorithms. Every operation is given twice: as a function on values, which says what it does
to the state, and, where the service changes objects in place, as a method of a class that is proved to take the
same step. The theorems are about runs of these steps: every run, every interleaving, every order of delivery.

`dafny verify dfyconfig.toml` checks the whole project.

| File | Subject |
|---|---|
| `Traceability.dfy` | event projection and bounded graph query of tp-service |
| `IamSessions.dfy` | refresh-token rotation and reuse detection of iam-service |
| `RefreshFlights.dfy` | single-flight refresh in the gateway, composed with `IamSessions.dfy` |
| `ProjectOwnership.dfy` | project ownership under optimistic concurrency in project-service |
| `FolderForest.dfy` | test folders of tp-service |
| `DefectWorkflow.dfy`, `DuplicateChains.dfy`, `DuplicateRaces.dfy`, `DefectStore.dfy` | defects of td-service: workflow, duplicate relation, requests that overlap, append-only tables |
| `RevisionRows.dfy`, `RequirementGovernance.dfy` | the revision table, lifecycle, hierarchy and change requests of requirement-service |
| `DesignSessions.dfy` | gated design sessions of tp-service |
| `TestExecutions.dfy` | attempts, reports and portal counts of tp-service |
| `Timestamps.dfy`, `AuditPaging.dfy` | keyset paging of audit-service over an append-only store |
| `Chains.dfy`, `Options.dfy` | finite parent relations, shared by folders, duplicates and requirements; results |

Identifiers and tokens are fresh values, hashes are injective, clocks are integers or are left out, and the
authorizer is a flag. A lock-protected block is one atomic step, and so is a database transaction, except where its
reads and its writes are steps of their own (`ProjectOwnership.dfy`, `DuplicateRaces.dfy`).

## What the code does not do

Proving a property sometimes shows where the code stops short of it. The model keeps the code as it is; each of
these is a contract that gives the exact condition, or an input that shows it.

- A trace query with `limit=1` answers "not visible" as soon as the first link it can follow joins two
  resources, although the root is linked (`Traceability.FirstTooBigMeansLimitOne`).
- Trace events are order-independent if and only if the well-formed ones have event ids and link ids of their own
  (`Traceability.ConvergesIff`). When two events claim one link id, a second delivery of the one that lost raises;
  repeats are answered after every order if and only if no two event ids claim one link id
  (`Traceability.RepeatsAnsweredIff`, `Traceability.OverwrittenRedeliveryRaises`).
- A refresh token used up two or more rotations ago is refused without ending its family: only the last one used
  up is remembered (`IamSessions.ReuseCaughtIff`, `IamSessions.OlderTokensGoUnnoticed`). A login and two refreshes
  are enough (`IamSessions.TwoRotationsForget`). A logout with such a token ends nothing (`IamSessions.LogoutEffect`).
- Single-flight joins only requests that overlap: a request that arrives after the leader freed the key refreshes
  a second time with the used token and ends the session (`RefreshFlights.LateRequestEndsFamily`). A login and two
  requests are enough (`RefreshFlights.LateRequestHappens`). A flight's call is caught as reuse exactly while an
  active session remembers its token as the last one used up (`RefreshFlights.CallReusedIff`). So when IAM's answer is
  lost on the way, the next request ends the session (`RefreshFlights.LostAnswerEndsFamily`).
- The depth guard of `move` limits the height of the moved subtree, wherever it is moved
  (`FolderForest.FolderUnitOfWork.MoveFolder`); in memory folders get arbitrarily deep
  (`FolderForest.DepthIsUnbounded`). Over the database the table's own check limits the depth to twenty: a create or
  move is committed if and only if its whole subtree fits (`FolderForest.DbCommitsIff`), and the guard of `move` never
  fires there (`FolderForest.DepthErrorIsDead`).
- The service accepts a defect whose business number its project uses already; the table refuses it, so of two
  requests with one number the second is accepted by the command and refused at the commit
  (`DefectStore.TwoCreates`). The same holds of texts that are longer than their columns. An accepted command is
  committed if and only if a created defect's number is free and short enough and new evidence references fit
  (`DefectStore.RequestCommits`); a unit of work of several commands also needs edges without a cycle, and no
  duplicate saved before a master that it created (`DefectStore.CommitIff`).
- Two requests that mark duplicates at the same time are not checked against each other, since each sees only what
  is committed: each of two defects can become a duplicate of the other, and the recursive query over them never runs
  out of rows (`DuplicateRaces.CycleHappens`, `DuplicateRaces.QueryEndsIff`). A run stays free of cycles if and only
  if no edge is written that fails its check by then (`DuplicateRaces.RunAcyclicIff`); two requests that overlap make
  one if and only if each master leads up to the other's duplicate (`DuplicateRaces.OverlapIff`), and requests that do
  not overlap never do (`DuplicateRaces.ApartKeepsAcyclic`).
- The owner swap is one statement over two rows, under an index that admits one active owner. It goes through only
  when the database comes to the old owner's row first (`ProjectOwnership.IndexedTransferIff`).
- The hierarchy's cycle check never fires (`RequirementGovernance.CycleCheckIsDead`).
- An approved change request is applied whatever revision it was opened against; its base is not compared with the
  newest one (`RequirementGovernance.ApplyIff`).
- Reloading a design session lists its runs by stage name, so after a reload the cases run is no longer the
  last one listed, and its gate is refused. Over the database, where every request reloads, no design session is
  ever imported (`DesignSessions.CasesGateIff`, `DesignSessions.LastUnlessReloaded`,
  `DesignSessions.ReloadedNeverImported`); in memory it is importable as long as no gate was skipped
  (`DesignSessions.ImportableIff`).
- A stored attempt that is started and finished within one unit of work is refused at the commit
  (`TestExecutions.CommitIff`, `TestExecutions.RushedAttemptIsRefused`).
- Audit pages lose records when the texts of the times order differently from the times, as with mixed UTC
  offsets (`AuditPaging.ExactIff`, `AuditPaging.DisagreementLosesRecords`, `Timestamps.MixedOffsets`).

## Model

| member | source | states |
|---|---|---|
| Traceability.ConsumeAllSummarizes | tp-service/src/tp_service/traceability.py:64-76 | when the well-formed events have event ids and link ids of their own, the projection is a function of the set of accepted events: links, consumed ids and last time are exactly theirs |
| Traceability.Converges | tp-service/src/tp_service/traceability.py:64-76 | then event sequences with the same set of events, in any order and with any repeats, give the same links, consumed set and last time |
| Traceability.ConvergesIff | tp-service/src/tp_service/traceability.py:64-76 | for every finite set of events: all its sequences give the same links, consumed set and last time if and only if its well-formed events have distinct event ids and distinct link ids |
| Traceability.SurvivingOrder | tp-service/src/tp_service/traceability.py:67-73 | every well-formed event of a set keeps its link after some order, so of two rivals either can win |
| Traceability.RepeatsAnsweredIff | tp-service/src/tp_service/traceability.py:67-69 | after every order of a set a repeated event is answered with a link if and only if no two event ids of its well-formed events claim one link id |
| Traceability.OverwrittenRedeliveryRaises | tp-service/src/tp_service/traceability.py:67-73 | an event whose link was overwritten is consumed, and raises StopIteration at every later delivery, whatever came in between |
| Traceability.ConsumedIsStored | tp-service/src/tp_service/traceability.py:69-76 | field by field: an event onto itself or with an unknown status is refused, and any other is stored as a link with the event's own source, target, type, time and status, beside every link of another id |
| Traceability.RepeatIsAnswered | tp-service/src/tp_service/traceability.py:67-68 | a repeated event changes nothing and is answered with a link that is on record under its event id, if there is one |
| Traceability.OneEventAnswers | tp-service/src/tp_service/traceability.py:64-123 | after one event a forward query answers its link from the source alone, a reverse query from the target alone, from any other resource or project it is not visible, and both nodes have the event's fields |
| Traceability.NextIsFrontier | tp-service/src/tp_service/traceability.py:97-112 | although no resource is marked visited and a link is stepped over to one endpoint only, the next frontier still holds every resource first reached at the next distance and nothing beyond it |
| Traceability.JoinsIff | tp-service/src/tp_service/traceability.py:97-101 | forward goes from source to target, reverse from target to source, both either way |
| Traceability.ReachedByRound | tp-service/src/tp_service/traceability.py:97-101 | a round can follow exactly the links with an eligible endpoint within its distance |
| Traceability.NothingFurther | tp-service/src/tp_service/traceability.py:110-111 | an empty next frontier means that no link lies further out at any depth |
| Traceability.FirstTooBigMeansLimitOne | tp-service/src/tp_service/traceability.py:103-114 | the first link is refused if and only if the limit is one and it joins two resources |
| Traceability.QueriesConverge | tp-service/src/tp_service/traceability.py:64-123 | a query answered in full after one delivery order is answered in full, with the same links and node ids, after every other |
| Traceability.NodeMapKeys | tp-service/src/tp_service/traceability.py:106-108 | the node map has exactly the endpoints of the selected links |
| Traceability.NodeOfLast | tp-service/src/tp_service/traceability.py:106-108 | a node shows the end of the last selected link that touches it, of a link's two ends the target |
| Traceability.CompletenessIff | tp-service/src/tp_service/traceability.py:115-120 | pass if and only if nothing is broken or cut off and there is a requirement, a test and no failure; unknown if and only if something is broken or cut off |
| Traceability.TraceProjectionService.Consume | tp-service/src/tp_service/traceability.py:64-76 | one event changes the projection as specified and is answered with its link; a repeated event changes nothing; a malformed one is refused and leaves no trace; what the link holds is in ConsumedIsStored |
| Traceability.TraceProjectionService.Scan | tp-service/src/tp_service/traceability.py:96-109 | one round follows the eligible links in order up to the first that would exceed the limit |
| Traceability.TraceProjectionService.Traverse | tp-service/src/tp_service/traceability.py:90-112 | truncated if and only if the depth-bounded neighbourhood has more than limit node ids; otherwise exactly that neighbourhood is selected, and always a part of it, within the limit |
| Traceability.TraceProjectionService.Query | tp-service/src/tp_service/traceability.py:78-123 | the answer in terms of the neighbourhood alone: validation, visibility, truncation, links, nodes, staleness, broken flag and completeness verdict |
| IamSessions.AdvanceKeepsInv | iam-service/src/iam_service/auth/service.py:53-93 | every login, refresh and logout keeps all current and previous digests distinct across sessions and each used token used |
| IamSessions.RunKeepsInv | iam-service/src/iam_service/auth/service.py:53-93 | the same after every run with fresh tokens |
| IamSessions.RefreshSucceedsIff | iam-service/src/iam_service/auth/service.py:69-87 | a refresh succeeds if and only if the token was issued, was never used, and its session and user are active |
| IamSessions.SucceedsAtMostOnce | iam-service/src/iam_service/auth/service.py:69-87 | over every run a refresh token succeeds at most once |
| IamSessions.BurntFamilyIsDead | iam-service/src/iam_service/auth/service.py:74-77 | once reuse is caught in a family, no token ever issued to it, before or after, succeeds again |
| IamSessions.ReuseCaughtIff | iam-service/src/iam_service/auth/service.py:71-77 | reuse is caught exactly for the token used up by the last rotation of an active session |
| IamSessions.OlderTokensGoUnnoticed | iam-service/src/iam_service/auth/service.py:71-79 | a token used up earlier is refused without any effect |
| IamSessions.TwiceIsReached | iam-service/src/iam_service/auth/service.py:53-87 | a login and two refreshes with fresh tokens reach the state in which the first token is used up and forgotten |
| IamSessions.TwoRotationsForget | iam-service/src/iam_service/auth/service.py:71-79 | there the first token is refused with no effect, and the family's current token still succeeds |
| IamSessions.SecondUseEndsFamily | iam-service/src/iam_service/auth/service.py:69-87 | presenting a token again right after it succeeded is caught as reuse of its family |
| IamSessions.RefreshEffect | iam-service/src/iam_service/auth/service.py:69-87 | what a refresh leaves in every row, by the session that has the token: rotation, revocation of the family with its reason and audit entry, or revocation for an inactive user |
| IamSessions.RefreshOfNothing | iam-service/src/iam_service/auth/service.py:69-79 | a token that no active session has is refused without any effect |
| IamSessions.SetUserEffect | iam-service/src/iam_service/auth/service.py:80-83 | once its user is not active, no session of it is refreshed |
| IamSessions.RevokeFamilyEnds | iam-service/src/iam_service/auth/repository.py:64-71 | revoking a family ends its active sessions with the reason and touches no other |
| IamSessions.LogoutEffect | iam-service/src/iam_service/auth/service.py:89-93 | logout revokes the active session that has the token as its current or previous one, and nothing else; without one it does nothing |
| IamSessions.LogoutIsFinal | iam-service/src/iam_service/auth/service.py:69-93 | over every run, after a logout no token of that session, issued before or since, succeeds again |
| IamSessions.LoginEffect | iam-service/src/iam_service/auth/service.py:53-67 | the user of that name, or a new active one, gets an active session in a family of its own; refused if and only if not authenticated or the user is not active |
| IamSessions.Session.Rotate | iam-service/src/iam_service/auth/models.py:49-54 | an active session moves its digest to the previous one and takes the new one; any other session is untouched |
| IamSessions.Session.Revoke | iam-service/src/iam_service/auth/models.py:56-59 | status, reason and version after a revocation, and nothing else changed |
| IamSessions.InMemoryIamRepository.FindSessionHash | iam-service/src/iam_service/auth/repository.py:49-58 | finds the one session that holds the digest as current or previous, or none |
| IamSessions.InMemoryIamRepository.DoRevokeFamily | iam-service/src/iam_service/auth/repository.py:64-71 | revokes exactly the active sessions of the family, in place |
| IamSessions.SessionService.DoRefresh | iam-service/src/iam_service/auth/service.py:69-87 | the service over live session objects takes the specified refresh step, with its outcome |
| IamSessions.SessionService.DoLogout | iam-service/src/iam_service/auth/service.py:89-93 | logout takes the specified step |
| IamSessions.SessionService.DoLogin | iam-service/src/iam_service/auth/service.py:53-67 | login finds or creates the user and opens a session in a new family |
| RefreshFlights.StepKeepsInv | devops-api-gateway/src/gateway/singleflight.py:24-48 | every step of every thread keeps the protocol's invariant, composed with anything else that happens at IAM |
| RefreshFlights.RunKeepsInv | devops-api-gateway/src/gateway/singleflight.py:24-48 | hence it holds in every interleaving |
| RefreshFlights.OneLeaderPerKey | devops-api-gateway/src/gateway/singleflight.py:25-41 | at most one thread per key runs the operation |
| RefreshFlights.KeyHoldsLeadersFlight | devops-api-gateway/src/gateway/singleflight.py:25-41 | until a leader frees its key, the map holds exactly its flight under it |
| RefreshFlights.TakenKeyHasLeader | devops-api-gateway/src/gateway/singleflight.py:39-41 | a key in the map always has a leader that will free it, also when the operation raised |
| RefreshFlights.LeaderFreesItsKey | devops-api-gateway/src/gateway/singleflight.py:39-41 | whether the operation returned or raised, the leader frees its own key and no other |
| RefreshFlights.SamePair | devops-api-gateway/src/gateway/app.py:188-204 | all threads of a flight that return a pair return the same one, and it is what the flight's call got from IAM |
| RefreshFlights.FollowerGetsLeadersResult | devops-api-gateway/src/gateway/singleflight.py:24-48 | whoever returns a pair has a leader that did not fail and whose result is that pair |
| RefreshFlights.FollowerGetsPublishedResult | devops-api-gateway/src/gateway/singleflight.py:42-48 | over every interleaving, a request that joined a flight returns nothing if it gave up waiting, and otherwise exactly what its leader published |
| RefreshFlights.FlightOfOwnKey | devops-api-gateway/src/gateway/singleflight.py:24-31 | a request's flight is for the token that it came with |
| RefreshFlights.BothGetThePair | devops-api-gateway/src/gateway/singleflight.py:24-48 | a run in which a second request joins the first and both return the one new pair, from one call of IAM |
| RefreshFlights.NobodyIsStuck | devops-api-gateway/src/gateway/singleflight.py:24-48 | every request that has not come back has a next step; a waiter can always give up, and can return once its leader published |
| RefreshFlights.ReturningLeaderCalledOnce | devops-api-gateway/src/gateway/app.py:188-204 | a leader whose operation returned, for a token that is not empty, called IAM exactly once for its flight, and its result is that call's answer |
| RefreshFlights.OneCallPerFlight | devops-api-gateway/src/gateway/app.py:190-192 | however many requests join a flight, it calls IAM at most once |
| RefreshFlights.ReuseComesFromEarlierFlight | devops-api-gateway/src/gateway/app.py:188-204 | a flight's call is denied for reuse only if the token had succeeded before in another flight that has freed the key, or outside any flight: never because of the flight's own callers |
| RefreshFlights.LateRequestEndsFamily | devops-api-gateway/src/gateway/singleflight.py:39-41 | a request with the same token that arrives after the key was freed leads a second flight, whose call is caught as reuse |
| RefreshFlights.LateRequestHappens | devops-api-gateway/src/gateway/singleflight.py:39-41 | a login and one request reach a state from which this happens |
| RefreshFlights.LostAnswerEndsFamily | devops-api-gateway/src/gateway/app.py:188-204 | when IAM rotated the token and its answer was lost, the leader raises, and the next request with the token is caught as reuse |
| RefreshFlights.CallReusedIff | devops-api-gateway/src/gateway/app.py:188-204 | a flight's call is answered as reuse if and only if an active session holds the flight's token as its previous one |
| ProjectOwnership.SwapIsExact | project-service/src/project_service/persistence/repositories.py:295-323 | a swap that reports two rows was of two different rows, both as they were read, and exchanged owner and admin; a transfer to the own row reports one and fails |
| ProjectOwnership.CommitKeepsOwner | project-service/src/project_service/collaboration/service.py:54-135 | whatever a transaction commits on rows read earlier, each project keeps one owner membership, active and recorded in the project; from the version checks alone |
| ProjectOwnership.RunKeepsInv | project-service/src/project_service/collaboration/service.py:54-135 | the invariant over all interleavings of reads and commits of any number of transactions |
| ProjectOwnership.EveryProjectHasOneOwner | project-service/src/project_service/collaboration/service.py:54-135 | in every reachable state exactly one membership of a project has the owner role, it is active, and the project's owner is its user |
| ProjectOwnership.TransferSucceedsIff | project-service/src/project_service/collaboration/service.py:109-135 | leaving the unique index aside, a transfer commits if and only if access was granted, the target is another member but no viewer, and both memberships and the project are unchanged since they were read |
| ProjectOwnership.TransferEffect | project-service/src/project_service/collaboration/service.py:109-135 | a committed transfer leaves the old owner an admin, the new one the owner, and the project theirs, and changes nothing else |
| ProjectOwnership.RoleChangeIff | project-service/src/project_service/collaboration/service.py:75-93 | when a role change commits, by role, versions and live project, and that it leaves the new role in that one row |
| ProjectOwnership.RemovalIff | project-service/src/project_service/collaboration/service.py:95-107 | the same for a removal, which keeps the role |
| ProjectOwnership.AdditionIff | project-service/src/project_service/collaboration/service.py:54-73 | the same for an addition, never as owner |
| ProjectOwnership.ProjectSteps | project-service/src/project_service/projects/models.py:21-30 | a new project starts with its creator as its one owner; archiving closes a project and changes nothing else |
| ProjectOwnership.IndexedTransferIff | project-service/src/project_service/persistence/tables.py:73-79 | with the index on active owners, checked row by row, it commits if and only if it does without and the statement visits the old owner's row first; the effect is the same |
| ProjectOwnership.SwapInOrder | project-service/src/project_service/persistence/repositories.py:295-323 | the two updates of the swap in either order: the old owner first exchanges the roles, the new owner first clashes |
| ProjectOwnership.NoLostUpdate | project-service/src/project_service/persistence/repositories.py:277-323 | of two transactions that read the same version of a row to write it, at most one commits |
| ProjectOwnership.StaleGuardFails | project-service/src/project_service/persistence/repositories.py:277-323 | a transaction whose row has moved on cannot commit |
| ProjectOwnership.ProjectMembership.ChangeRole | project-service/src/project_service/collaboration/models.py:32-40 | the version and owner guards and the new role, with the order of the errors |
| ProjectOwnership.ProjectMembership.Remove | project-service/src/project_service/collaboration/models.py:42-48 | the owner cannot be removed, anyone else can, at the expected version |
| ProjectOwnership.CollaborationService.ChangeMemberRole | project-service/src/project_service/collaboration/service.py:75-93 | the method over membership objects commits exactly what its reads allow: the row with the new role and the next version, and nothing else |
| ProjectOwnership.CollaborationService.DropMember | project-service/src/project_service/collaboration/service.py:95-107 | the same for a removal: the row becomes inactive at the next version, and nothing else |
| ProjectOwnership.CollaborationService.AddToProject | project-service/src/project_service/collaboration/service.py:54-73 | a user without an active membership gets one with the requested role, one who has one keeps it |
| ProjectOwnership.CollaborationService.TransferOwnership | project-service/src/project_service/collaboration/service.py:109-135 | the same for a transfer: two memberships and the project, or nothing |
| FolderForest.StepKeepsWellFormed | tp-service/src/tp_service/service.py:76-116 | every create and move keeps parents existing, sibling names distinct and the folders a forest |
| FolderForest.ReachableIsWellFormed | tp-service/src/tp_service/service.py:76-116 | so over every run from the empty store no folder is its own ancestor |
| FolderForest.CycleGuardIsExact | tp-service/src/tp_service/domain.py:28-35 | the move is refused as a cycle if and only if it would make one |
| FolderForest.PlacementIff | tp-service/src/tp_service/service.py:76-116 | writing a row leaves a well-formed store if and only if the name is free, the parent is there and it is not below the folder |
| FolderForest.CreateIff | tp-service/src/tp_service/service.py:76-95 | a create is accepted if and only if its squeezed name has 1 to 200 characters and the store with the new folder is well formed; that store is the result |
| FolderForest.MoveIff | tp-service/src/tp_service/service.py:97-116 | a move is accepted if and only if the folder is there, at most twenty levels hang below it and the store with the folder in its new place is well formed; that store is the result |
| FolderForest.RefusalSaysWhy | tp-service/src/tp_service/service.py:76-116 | a refusal names the first check that failed |
| FolderForest.NextFound | tp-service/src/tp_service/repository.py:326-335 | in a forest a round adds exactly the next level, which no earlier round has seen |
| FolderForest.NothingDeeper | tp-service/src/tp_service/repository.py:332-333 | an empty level means that all descendants have been found |
| FolderForest.DepthIsUnbounded | tp-service/src/tp_service/service.py:76-95 | in memory, for every n an accepted run of creations puts a folder below n others |
| FolderForest.DbCommitsIff | tp-service/src/tp_service/persistence.py:32 | over the database an accepted create or move is committed if and only if the depth of its target, one, and the height of the placed subtree add up to at most twenty; at the root it always is, and a new folder has height zero |
| FolderForest.CommittedIsStorable | tp-service/src/tp_service/repository.py:618-637 | so over every run of creates and moves, committed or refused, every stored folder is at most twenty levels deep, and no command is ever refused by the depth guard |
| FolderForest.DepthErrorIsDead | tp-service/src/tp_service/repository.py:336-340 | the depth guard never fires on folders that the table holds |
| FolderForest.TestFolder.Move | tp-service/src/tp_service/domain.py:28-35 | the guards in their order, and the new parent and version |
| FolderForest.FolderUnitOfWork.FolderDescendants | tp-service/src/tp_service/repository.py:322-341 | returns exactly the strict descendants; raises if and only if the subtree is more than 20 levels high |
| FolderForest.FolderUnitOfWork.CreateFolder | tp-service/src/tp_service/service.py:76-95 | takes the specified create step on live folder objects |
| FolderForest.FolderUnitOfWork.MoveFolder | tp-service/src/tp_service/service.py:97-116 | takes the specified move step in place; under the other guards it is refused for depth if and only if the moved subtree is more than twenty levels high, whatever the target's depth |
| FolderForest.FolderUnitOfWork.NormalizedFolderNameExists | tp-service/src/tp_service/repository.py:343-358 | whether another folder of the project has the normalized name under that parent |
| FolderForest.FolderUnitOfWork.PathAndDepth | tp-service/src/tp_service/repository.py:618-630 | the walk ends; the path lists the ancestors from the root, and the depth is their number |
| FolderForest.FolderUnitOfWork.Commit | tp-service/src/tp_service/repository.py:618-637 | saving all folders succeeds if and only if each is at most twenty levels deep |
| DefectWorkflow.TransitionFollowsTable | td-service/src/td_service/domain.py:158-201 | an accepted action moves the status as the nine-state table says and appends one entry from the old to the new status |
| DefectWorkflow.ActionIff | td-service/src/td_service/domain.py:158-201 | an action is accepted if and only if status, role and evidence permit it |
| DefectWorkflow.ActionEffect | td-service/src/td_service/domain.py:158-201 | an accepted action writes what it was given to its own fields and leaves all others |
| DefectWorkflow.RefusalSaysWhy | td-service/src/td_service/domain.py:158-201 | the error of a refused action, by what is wrong |
| DefectWorkflow.TransitionKeepsInv | td-service/src/td_service/domain.py:154-201 | every action keeps history replayable, version and counters exact, an assignee from the assignment to the close, and a closed defect with verifier, fix version, fix evidence, root cause and a passed last verification; earlier records and the service-level policy stay |
| DefectWorkflow.PatchKeepsInv | td-service/src/td_service/service.py:123-201 | a patch does the same, and changes neither status nor service levels, even when it changes the severity |
| DefectWorkflow.PatchEffect | td-service/src/td_service/service.py:123-201 | each patched field gets its new value, each other keeps its own; accepted if and only if something patchable is given and the result is within the rules |
| DefectWorkflow.ContentRefusalSaysWhy | td-service/src/td_service/domain.py:137-151 | the first rule that refused content breaks |
| DefectWorkflow.PatchRefusalSaysWhy | td-service/src/td_service/service.py:146-173 | why a patch is refused |
| DefectWorkflow.CreateEffect | td-service/src/td_service/domain.py:137-152 | a new defect in full, with its due times in hours by severity |
| DefectWorkflow.ChainedAt | td-service/src/td_service/domain.py:154-156 | entry i is numbered i+1, starts where entry i-1 ended, and follows the table |
| DefectWorkflow.CreateInv | td-service/src/td_service/domain.py:137-152 | a created defect satisfies all of it |
| DefectWorkflow.DuplicateIsFinal | td-service/src/td_service/domain.py:163-200 | a rejected or duplicate defect accepts no action any more |
| DefectWorkflow.Defect.DoTransition | td-service/src/td_service/domain.py:158-201 | the method that assigns fields in place has the specified effect; a refused action changes nothing |
| DefectWorkflow.Defect.DoPatch | td-service/src/td_service/service.py:123-201 | the patch in place; a refused one leaves at most content fields half-written, as the code does |
| DuplicateChains.MemoryAncestors | td-service/src/td_service/repository.py:174-184 | the walk over aggregates ends on every store and returns exactly the master and its ancestors |
| DuplicateChains.RowAncestors | td-service/src/td_service/repository.py:290-302 | the walk over rows does the same |
| DuplicateChains.QueryChain | td-service/src/td_service/persistence.py:156-184 | the recursive query, iterated over its working table, ends on an acyclic relation and finds exactly the master's ancestors |
| DuplicateChains.CheckEdge | td-service/src/td_service/persistence.py:156-184 | the check before an edge is inserted refuses a self-reference, an invisible master and a duplicate already above its master, in this order |
| DuplicateChains.ChecksAgree | td-service/src/td_service/persistence.py:156-184 | the results of the three computations, both walks and the query, accept exactly the same edges: those that keep the relation acyclic |
| DuplicateRaces.StepAcyclicIff | td-service/src/td_service/persistence.py:156-184 | a commit keeps the relation free of cycles if and only if its edge would still pass the check |
| DuplicateRaces.RunAcyclicIff | td-service/src/td_service/repository.py:336-350 | the same over whole runs of any number of interleaved requests |
| DuplicateRaces.ApartKeepsAcyclic | td-service/src/td_service/repository.py:336-350 | when no edge of a project is committed between the check and the commit of another, every run keeps the relation free of cycles |
| DuplicateRaces.TogetherIff | td-service/src/td_service/persistence.py:156-184 | two edges that pass the check on one relation go together unless each master's chain leads to the other's duplicate |
| DuplicateRaces.OverlapIff | td-service/src/td_service/repository.py:482-510 | two requests that both check before either commits are both committed, and make a cycle under exactly that condition |
| DuplicateRaces.CycleHappens | td-service/src/td_service/persistence.py:156-184 | from the empty relation two such requests make a cycle of two, over which the query never runs dry |
| DuplicateRaces.QueryEndsIff | td-service/src/td_service/persistence.py:170-182 | the recursive query runs out of rows if and only if the master's chain ends |
| DefectStore.AppendExtends | td-service/src/td_service/repository.py:349-445 | saving a list that extends the stored one stores it |
| DefectStore.AppendRefuses | td-service/src/td_service/repository.py:371-376 | a stored entry that differs is refused |
| DefectStore.ListedNumbered | td-service/src/td_service/repository.py:195-288 | reading numbered rows in order gives the list back |
| DefectStore.LoadStored | td-service/src/td_service/repository.py:195-288 | loading what is stored gives the aggregate back |
| DefectStore.SaveExtended | td-service/src/td_service/repository.py:304-480 | saving a changed aggregate is never refused for its records: only for its number, its duplicate edge or the width of a text, in this order of checks |
| DefectStore.SaveNew | td-service/src/td_service/repository.py:304-480 | the same for a new one, whose number may be taken |
| DefectStore.CommitMidway | td-service/src/td_service/repository.py:482-486 | however far a commit gets, it never raises an append-only error; it is refused for a number, an edge or a width, and otherwise what it reached is saved and the rest untouched |
| DefectStore.CommitLossless | td-service/src/td_service/repository.py:482-515 | after a commit, loading all rows gives the unit of work back |
| DefectStore.CommitKeepsRecords | td-service/src/td_service/repository.py:349-480 | every history and evidence row that was there is there unchanged, and the policy and due dates are |
| DefectStore.CommitIff | td-service/src/td_service/repository.py:482-515 | a unit of work is committed if and only if its duplicates have no cycle, its business numbers are distinct in each project, its texts fit their columns, and no duplicate is saved before a master that the unit of work created |
| DefectStore.CommitAccepts | td-service/src/td_service/repository.py:482-486 | with at most one new, checked edge the numbers and the widths alone decide, in any order of the dictionary |
| DefectStore.WorkContinues | td-service/src/td_service/service.py:32-201 | after any number of accepted commands the unit of work still continues everything that is stored: histories and records are extended, service levels kept |
| DefectStore.UnitOfWorkCommits | td-service/src/td_service/repository.py:482-515 | a unit of work of any commands is committed under exactly that condition, never refused by an append-only check, and reloading gives it back |
| DefectStore.RequestCommits | td-service/src/td_service/service.py:32-201 | a request, which is load, one accepted command and commit, is committed if and only if a created defect's number is free in its project and has at most 64 characters, and a new evidence reference has at most 500 |
| DefectStore.ServedRequest | td-service/src/td_service/repository.py:482-515 | from tables to tables: a request leaves everything as it was, or stores exactly the one aggregate, as asked for, and every other defect loads as before |
| DefectStore.ExecuteEffect | td-service/src/td_service/service.py:32-201 | an accepted command leaves what was asked for, in history, people and content; a defect or a master of another project is not visible |
| DefectStore.PolicyIsFixed | td-service/src/td_service/repository.py:445-480 | a stored policy's key, version and due dates are fixed; saving any other is refused |
| DefectStore.TakenNumberIsRefused | td-service/src/td_service/persistence.py:33 | creating a defect with a number that is taken in its project is accepted by the command and refused at the commit |
| DefectStore.TwoCreates | td-service/src/td_service/service.py:32-48 | from the empty tables: the first of two creations with one number is committed, the second accepted and refused |
| DefectStore.RunKeepsStore | td-service/src/td_service/repository.py:482-515 | over every run of units of work of any commands the tables stay consistent, the duplicate relation acyclic and the business numbers distinct; runs assume nothing but fresh identifiers |
| DefectStore.RunKeepsRecords | td-service/src/td_service/repository.py:349-480 | over every such run nothing recorded is changed or lost, and due dates stay those of the creation |
| DefectStore.LoadedDefect | td-service/src/td_service/domain.py:154-201 | in every reachable store replaying a defect's history gives its status, version is one more than its length, a closed defect is accounted for, no defect is above itself, and none shares its number |
| DefectStore.NewEdgeSavedIff | td-service/src/td_service/persistence.py:156-184 | a new edge is saved if and only if the master is another, visible defect and the relation stays acyclic |
| RequirementGovernance.UpIsLevel | requirement-service/src/requirement_service/domain.py:41-48 | k steps up the hierarchy are k levels up the type ranking |
| RequirementGovernance.AtMostThreeAncestors | requirement-service/src/requirement_service/domain.py:142-156 | chains have at most three ancestors and end |
| RequirementGovernance.CycleCheckIsDead | requirement-service/src/requirement_service/domain.py:154-155 | REQUIREMENT_CYCLE can never be raised |
| RequirementGovernance.StepKeepsInv | requirement-service/src/requirement_service/service.py:149-332 | every command keeps revisions numbered, the newest equal to the live content, the hierarchy legal and the business numbers distinct in each project, and only adds revisions |
| RequirementGovernance.RunKeepsInv | requirement-service/src/requirement_service/service.py:149-332 | hence over every run |
| RequirementGovernance.VersionCountsTransitions | requirement-service/src/requirement_service/service.py:708-731 | version minus current revision is the number of accepted lifecycle actions, over every run |
| RequirementGovernance.PatchIff | requirement-service/src/requirement_service/service.py:198-264 | a patch is accepted if and only if it is governed and legal; each field gets its value or keeps it, frozen as exactly one more revision, or, once baselined, it becomes a draft request against the newest revision and the requirement stays |
| RequirementGovernance.ApplyIff | requirement-service/src/requirement_service/service.py:596-634 | a request is applied if and only if it is approved and its patch is legal; then its patch is in the content, field by field, and in exactly one more revision |
| RequirementGovernance.MoveChangeIff | requirement-service/src/requirement_service/service.py:596-634 | every other change action moves the request alone, along its state machine |
| RequirementGovernance.BaselinedIsProtected | requirement-service/src/requirement_service/service.py:198-332 | over every run, the content and the revisions of a baselined requirement change only when an approved change request is applied to it |
| RequirementGovernance.MoveIff | requirement-service/src/requirement_service/service.py:266-332 | a lifecycle action changes status and version alone, and only as the lifecycle and its evidence allow |
| RequirementGovernance.CreateIff | requirement-service/src/requirement_service/service.py:149-166 | a new requirement is a draft without a parent whose content is its first revision; refused for its content or its number |
| RequirementGovernance.BaselineEffect | requirement-service/src/requirement_service/domain.py:125 | marking a requirement as baselined changes nothing else |
| RequirementGovernance.OpenChangeIff | requirement-service/src/requirement_service/service.py:555-594 | a change request is opened against any revision of the requirement, as a draft |
| RequirementGovernance.WriteRefusalSaysWhy | requirement-service/src/requirement_service/service.py:708-731 | which rule of content or parent a refused write breaks |
| RequirementGovernance.ChangeRefusalSaysWhy | requirement-service/src/requirement_service/service.py:596-634 | why a change action is refused: the request is not visible, its state, its patch, or what the write says |
| RequirementGovernance.MoveRefusalSaysWhy | requirement-service/src/requirement_service/domain.py:158-181 | why a lifecycle action is refused |
| RequirementGovernance.PatchRefusalSaysWhy | requirement-service/src/requirement_service/service.py:685-706 | why a patch or a change request is refused before anything is written |
| RequirementGovernance.RevisionsAreImmutable | requirement-service/src/requirement_service/repository.py:130-176 | over the rows: the revisions read at an earlier moment are a prefix of those read at any later one |
| RequirementGovernance.RowsAreImmutable | requirement-service/src/requirement_service/repository.py:154-173 | over every run a row of the revision table is never changed or dropped |
| RevisionRows.WriteRows | requirement-service/src/requirement_service/repository.py:154-173 | one pass over the values inserts those whose identifiers the requirement does not have yet, as specified |
| RevisionRows.WriteKeepsRows | requirement-service/src/requirement_service/repository.py:154-173 | whatever list is assigned, the rows of the requirement stay as they are: a changed value is passed over |
| RevisionRows.ReadRows | requirement-service/src/requirement_service/repository.py:135-152 | reads the rows of one requirement, each once, in the order of their numbers |
| RevisionRows.OneReading | requirement-service/src/requirement_service/repository.py:135-152 | with consecutive numbers there is only one such reading |
| RevisionRows.ReadBackNext | requirement-service/src/requirement_service/repository.py:135-173 | assigning the list that was read with one more revision inserts exactly that one, and reading again gives the longer list |
| RevisionRows.ReadBackOther | requirement-service/src/requirement_service/repository.py:135-173 | the revisions of every other requirement are read as before |
| RequirementGovernance.ReachableRequirement | requirement-service/src/requirement_service/domain.py:57-156 | what every reachable store says of a requirement, together |
| RequirementGovernance.LatestIsLast | requirement-service/src/requirement_service/service.py:647-654 | the highest-numbered revision is the last one |
| RequirementGovernance.LoadedRequirement.DoSetParent | requirement-service/src/requirement_service/domain.py:142-156 | exactly which parents are accepted, and the error otherwise, in the order of the checks |
| RequirementGovernance.LoadedRequirement.DoTransition | requirement-service/src/requirement_service/domain.py:158-181 | the guards of each action in their order take the specified step: the new status and one more version, or the error and no change |
| RequirementGovernance.RequirementService.Ancestors | requirement-service/src/requirement_service/service.py:749-758 | the walk ends and returns exactly the ancestors |
| RequirementGovernance.RequirementService.ApplyTo | requirement-service/src/requirement_service/service.py:708-731 | the fields are written, checked and frozen as specified, or nothing is stored |
| RequirementGovernance.RequirementService.Revisions | requirement-service/src/requirement_service/repository.py:135-152 | a stored requirement always has revisions, and reads them in order |
| RequirementGovernance.RequirementService.DoCreate | requirement-service/src/requirement_service/service.py:149-166 | takes the specified create step: refused for its content, or by the table for a business number that is taken or too long |
| RequirementGovernance.RequirementService.DoMove | requirement-service/src/requirement_service/service.py:266-332 | takes the specified lifecycle step |
| RequirementGovernance.RequirementService.DoPatch | requirement-service/src/requirement_service/service.py:198-264 | edits in place, or opens a change request against the latest revision once baselined |
| RequirementGovernance.RequirementService.DoMoveChange | requirement-service/src/requirement_service/service.py:596-634 | a change request advances, and applying it writes its patch and freezes a revision, as ApplyIff says; a patch that cannot be applied leaves both as they were |
| DesignSessions.ReloadKeepsAllButOrder | tp-service/src/tp_service/repository.py:427-483 | saving and loading a session keeps everything, including the approvals, but the order of its runs |
| DesignSessions.ReviewIsOfLast | tp-service/src/tp_service/service.py:146-170 | an accepted gate is on the last run listed, whose stage is the one in review |
| DesignSessions.ReviewIff | tp-service/src/tp_service/service.py:146-170 | at all three stages, for every run, reviewer and decision: accepted if and only if it approves the last run listed, of the stage in review, by someone else than the creator or privileged; what it leaves, and the error otherwise |
| DesignSessions.ApprovedMeansReviewed | tp-service/src/tp_service/domain.py:153-191 | over every run, each approved stage and each recorded gate stems from an accepted review with the decision approved |
| DesignSessions.RunStageIff | tp-service/src/tp_service/service.py:134-144 | a stage runs only from the status before it and leaves approvals and gates as they were |
| DesignSessions.ImportIff | tp-service/src/tp_service/service.py:172-200 | an import needs a ready session with all three stages approved, a known strategy and a readable file |
| DesignSessions.StepKeepsInv | tp-service/src/tp_service/domain.py:136-197 | every command keeps status, runs, gates and approvals in step |
| DesignSessions.ImportedHistory | tp-service/src/tp_service/domain.py:85-197 | everything accepted on an imported session is: analysis, its approvals, design, its approvals, cases, its approval, import; each stage once, each gate decided as approved, by someone else than the creator or privileged |
| DesignSessions.ImportableIff | tp-service/src/tp_service/domain.py:136-197 | some continuation imports a session if and only if it is open: nothing left behind unapproved, and a cases run in review is still the last listed |
| DesignSessions.SkippedGateIsFatal | tp-service/src/tp_service/domain.py:136-151 | after a stage was started before the previous one was approved, no continuation imports the session |
| DesignSessions.CasesGateIff | tp-service/src/tp_service/service.py:146-170 | the gate on the cases run is accepted if and only if the reviewer may review and the run is still the last listed |
| DesignSessions.LastUnlessReloaded | tp-service/src/tp_service/repository.py:430-432 | it is, if and only if the session was not reloaded since it ran |
| DesignSessions.ReloadedNeverImported | tp-service/src/tp_service/app.py:305-313 | when a reload follows every cases run, no session ever becomes ready to import |
| DesignSessions.DesignSession.StartStage | tp-service/src/tp_service/domain.py:136-145 | accepted exactly at the stage's first status; the queued run and its attempt number |
| DesignSessions.DesignSession.CompleteStage | tp-service/src/tp_service/domain.py:147-151 | the run is completed and the stage in review |
| DesignSessions.DesignSession.DoApplyGate | tp-service/src/tp_service/domain.py:153-191 | the guards in their order, and the recorded gate with its decision |
| DesignSessions.DesignSession.MarkImported | tp-service/src/tp_service/domain.py:193-197 | only a ready session with three approved stages |
| DesignSessions.DesignService.DoRunStage | tp-service/src/tp_service/service.py:134-144 | start and completion together take the specified step |
| DesignSessions.DesignService.DoReview | tp-service/src/tp_service/service.py:146-170 | takes the specified review step on the stored session, which ReviewIff describes |
| DesignSessions.DesignService.DoImport | tp-service/src/tp_service/service.py:172-200 | a batch is appended if and only if the session becomes imported |
| TestExecutions.StepKeepsInv | tp-service/src/tp_service/execution.py:124-139 | every command, also one that fails halfway, keeps attempts numbered 1..n with only the last open, and only extends them |
| TestExecutions.TransitionEffect | tp-service/src/tp_service/execution.py:124-132 | the latest attempt gets the requested result and text, if it accepts them; nothing else changes |
| TestExecutions.RerunEffect | tp-service/src/tp_service/domain.py:329-336 | one attempt more, not run yet, of a case whose latest attempt is finished |
| TestExecutions.CorrectionEffect | tp-service/src/tp_service/execution.py:134-139 | one attempt more that has the result already; one that cannot have it is left running |
| TestExecutions.StartEffect | tp-service/src/tp_service/domain.py:322-327 | each named case, and no other, gets one first attempt |
| TestExecutions.FinishedAttemptsNeverChange | tp-service/src/tp_service/domain.py:219-243 | in every reachable execution attempt i is numbered i+1, all but the last are finished, and a finished attempt is the same ever after |
| TestExecutions.SummaryAddsUp | tp-service/src/tp_service/domain.py:347-359 | the four published counts add up to the number of cases |
| TestExecutions.PortalAgreesWithReport | tp-service/src/tp_service/service.py:640-666 | the portal says passed or failed if and only if a report can be published, failed if and only if its failed and blocked counts are not both zero, and pending exactly before the start |
| TestExecutions.HighestIsLatest | tp-service/src/tp_service/repository.py:156 | the attempt with the highest number is the last in the list |
| TestExecutions.RowCounts | tp-service/src/tp_service/repository.py:216-253 | counting the stored rows of an execution by the highest number per case, among rows of any other executions, gives the same counts |
| TestExecutions.CommitIff | tp-service/src/tp_service/repository.py:761-801 | a commit accepts the attempts of an execution if and only if no attempt stored as not run has been finished since; finished rows are never in its way |
| TestExecutions.RowTakesIff | tp-service/src/tp_service/repository.py:766-801 | a finished row takes only the same attempt, an unfinished one also its next status |
| TestExecutions.RushedAttemptIsRefused | tp-service/src/tp_service/repository.py:761-801 | a reachable case of the refusal: an attempt stored as not run, started and passed in one unit of work, while started alone it is saved |
| TestExecutions.HoldsAfter | tp-service/src/tp_service/repository.py:761-801 | after a commit the rows are exactly the attempts |
| TestExecutions.CaseRun.DoTransition | tp-service/src/tp_service/domain.py:225-236 | the allowed moves, the result text that failed and blocked need, and the version |
| TestExecutions.CaseRun.Rerun | tp-service/src/tp_service/domain.py:238-241 | only a finished attempt has a successor, with the next number |
| TestExecutions.TestExecution.DoStart | tp-service/src/tp_service/domain.py:322-327 | one first attempt per distinct case, from draft only |
| TestExecutions.TestExecution.DoRerun | tp-service/src/tp_service/domain.py:329-336 | appends to the list of the case |
| TestExecutions.TestExecution.TransitionAttempt | tp-service/src/tp_service/execution.py:124-132 | changes the latest attempt object only; no other place shares it |
| TestExecutions.TestExecution.CorrectTerminal | tp-service/src/tp_service/execution.py:134-139 | appends, runs and finishes an attempt; an unacceptable result leaves it running |
| TestExecutions.TestExecution.Publish | tp-service/src/tp_service/domain.py:347-359 | succeeds if and only if started and every latest attempt is finished, and counts them |
| TestExecutions.TestExecution.PortalCounts | tp-service/src/tp_service/repository.py:141-152 | counts the latest attempt of every case by status |
| TestExecutions.AttemptRows.Commit | tp-service/src/tp_service/repository.py:766-801 | saves every attempt or nothing, and refuses if and only if some row refuses its attempt |
| Timestamps.LocalOrder | audit-service/src/audit_service/records/repository.py:22-26 | local times order as calendar date and clock do |
| Timestamps.FieldsOrder | audit-service/src/audit_service/app.py:145-149 | fixed-width texts compare as their numbers do, field by field |
| Timestamps.IsoText | audit-service/src/audit_service/app.py:145-149 | the text of a time in full: date, clock, microseconds if there are any, offset |
| Timestamps.CalendarIsGregorian | audit-service/src/audit_service/app.py:123-124 | the months of a year, and its leap day |
| Timestamps.SameOffsetOrder | audit-service/src/audit_service/app.py:145-149 | with one UTC offset, ISO texts order exactly as the instants, with or without microseconds |
| Timestamps.MixedOffsets | audit-service/src/audit_service/app.py:145-149 | two times with different offsets whose texts order the other way round |
| AuditPaging.StoreHoldsFirst | audit-service/src/audit_service/records/repository.py:10-18 | after any appends the store holds, for each event, exactly the record it was first appended with |
| AuditPaging.OneListing | audit-service/src/audit_service/records/repository.py:20-26 | a set of records has one listing, newest first |
| AuditPaging.MatchesIff | audit-service/src/audit_service/app.py:118-142 | a record matches if and only if it is in the range and has the value of every filter given; a missing project is filtered as None |
| AuditPaging.PageIs | audit-service/src/audit_service/app.py:105-152 | a page: at most 1 to 100 records as the limit says, all matching and after the cursor, newest first; every other such record is older, and the cursor continues behind the last |
| AuditPaging.ReadsExactlyOnce | audit-service/src/audit_service/app.py:105-166 | a finished reading delivered every matching record present at its first request exactly once and nothing twice, whatever was appended in between and whatever the limits, when cursor order and time order agree |
| AuditPaging.ReadingFinishes | audit-service/src/audit_service/app.py:151-152 | within one request more than there are matching records |
| AuditPaging.ReadsDuringAppends | audit-service/src/audit_service/app.py:105-166 | the same for readings during any run of appends of records with one UTC offset |
| AuditPaging.ExactIff | audit-service/src/audit_service/app.py:143-152 | on a store that does not change, reading is exact for every page size if and only if the two orders agree on the matching records |
| AuditPaging.DisagreementLosesRecords | audit-service/src/audit_service/app.py:143-152 | two matching records whose times and texts order differently make some page size lose or repeat one |
| AuditPaging.AuditRepository.Append | audit-service/src/audit_service/records/repository.py:10-18 | adds a record unless its event is recorded, and returns the one the event is recorded with |
| AuditPaging.AuditRepository.List | audit-service/src/audit_service/records/repository.py:20-26 | lists all records, newest first |
| AuditPaging.AuditRepository.QueryRecords | audit-service/src/audit_service/app.py:105-160 | one page: range check, filters, continuation after the cursor, clamped limit and next cursor |
| Chains.LineIsAncestors | tp-service/src/tp_service/repository.py:623-630 | walking up lists exactly the ancestors |
| Chains.ForestIffNoCycle | td-service/src/td_service/repository.py:174-184 | all walks up end if and only if nothing is its own ancestor |
| Chains.RelinkIff | tp-service/src/tp_service/domain.py:32-34 | giving an element a parent keeps a forest if and only if the parent is neither itself nor below it |

## Left out

- HTTP routing, headers, JSON, problem responses, configuration, cookies: no state of their own.
- Idempotency keys and outbox events: recorded beside each command, not read by it; nor is what their own tables refuse (the width of a key).
- Characters that a text column of the database cannot hold, trailing blanks beyond a column's width (refused here, dropped there), and versions beyond its integer columns.
- Tokens, digests, JWTs, content hashes, the base64 form of the audit cursor: fresh values, injective functions, or the decoded value.
- The authorizer and role policies beyond the checks named above: a flag of the command.
- Case folding and white-space squeezing of folder names: any two functions; `strip` knows four white-space characters here.
- Session expiry in IAM: `refresh` does not look at it. Seeding of permissions at login.
- Races inside IAM: the session save has no version check, so each login, refresh and logout is one step; the SQL adapter's unsaved `user_inactive` revocation is modelled as in memory.
- Project transactions: reads are separate steps, the writes of one transaction are one step, since their row locks are held to the commit. The unique index on active members: adding one user twice at the same time commits twice here. Versions, iterations and tasks of a project, and the idempotency executor, are not modelled.
- Which thread of a flight is woken when: a waiter may wake, or time out, at any time.
- The order of nodes in a trace answer.
- Folder rows: two units of work at once, where the unique constraint on sibling names would matter; the column width of the normalized name; a refused commit is a step that changes nothing.
- Defects: two units of work at once over the same defect (stale writes), or creating one number at the same time; breach flags of the service levels.
- Requirements: review rounds, baselines (setting the flag is a step from outside), comments, portal lists.
- Revision identifiers are fresh in the whole table: a clash with a row of another requirement, which the database would refuse, does not occur.
- Requirement content hashes and the JSON copy of a snapshot: a snapshot is a value.
- Design sessions: stage runs are values in the session's list, not objects shared with the caller; outputs and hashes of the generator; the content of imports; the order in which equally timed gates are reloaded.
- Executions: plans and environments; the row of the execution itself and its unique round number within a plan; the attempt's own version, which is not stored and restarts at 1 after a load; the order of rows at load; automation results; report revisions.
- AuditPaging.ReadsExactlyOnce: says nothing of records appended while reading; some are delivered, some are not. Times without an offset are not modelled (comparing them with others raises), nor are offsets with seconds.
- The gateway's dashboard, the portal user interface, packaging and tools: not part of this model.
