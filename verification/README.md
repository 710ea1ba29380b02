# duckgres coordination, verified

duckgres runs DuckDB behind the PostgreSQL protocol with a control plane that hands workers to
tenants.  This project models the coordination of that control plane and of its workers in Dafny 4.11
and proves what every interleaving keeps.  `dafny verify dfyconfig.toml` checks the whole of it.

How it is written:

- Code that mutates an object under a lock is a class, one method per critical section, specified by
  a function on the object's value (`View()`).
- A concurrent protocol is a run: a `System` value, labels that each advance one thread through one
  critical section, one unlocked read or one foreign call, and `Exec(s, labels)`.  A label that is not
  enabled changes nothing, so "for every sequence of labels" is "for every interleaving".  A theorem
  about two points of a run takes two label sequences.
- The outcome of a foreign call (Kubernetes, gRPC, the database connection, DuckDB) and a choice made
  by Go map iteration are part of the label, so every outcome and every order is covered.

| file | models |
|---|---|
| Prelude.dfy, Sums.dfy | options, distinct sequences, sums over sets, string order |
| Activation.dfy | worker-side activation fencing |
| SessionManager.dfy | slot limiter, session index, lifecycle counter: values and objects |
| SessionRuns.dfy | creations, destructions, crash sweeps and drains interleaved; the invariant |
| SessionTheorems.dfy | what follows from it in every run |
| SessionOperations.dfy | what one operation comes to when undisturbed |
| RuntimeStore.dfy | durable worker rows and the fenced statements on them |
| WorkerLifecycle.dfy | the lifecycle service and its cleanup calls |
| Shutdown.dfy | pool shutdown around the drain, delete, retire chain |
| HealthChecks.dfy | crash detection racing with dead-worker cleanup |
| WorkerState.dfy | in-memory lifecycle of a shared worker, activations in flight |
| FlightPool.dfy | the process pool's cap with spawns in flight |
| OrgRouting.dfy | edge-triggered org reconciliation against a level-triggered specification |
| WarmCapacity.dfy, WarmTargets.dfy | the dynamic warm-capacity allocator |

## Where code and promise differ

The model follows the code.

- The comment on `sameTenantActivationRuntime` says that all structural DuckLake fields are compared but
  the rotating credentials.  Ten are not: `RestrictClientSessions`, `DisableMetadataThreadLocalCache`,
  `AzureProvider`, `AzureAccountName`, `AzureChain`, `AzureClientID`, `HTTPProxy`, `SpecVersion`,
  `ViaPgBouncer` and `ApplicationName`.  `Activation.SpecVersionChangesUnderReuse` gives the input,
  `Activation.ComparisonAsPromisedIff` and `Activation.ReuseKeepsUnreadIff` are exact.
- A worker's first id stays for good only if it is positive; `Activation.WorkerIdKeptIffPositive` is
  exact and `Activation.NonPositiveIdMoves` gives the run.
- `OnWorkerCrash` ends with a delete that can drop a session registered meanwhile from the index by
  worker: `SessionTheorems.SweepCanLoseASession`; `SessionTheorems.IndexIsCompleteIff` says exactly when.
- The comment on `AcquireWorker` says that worker processes never exceed `maxWorkers`.  Pool entries and
  spawns under way do not; a retired worker's process outlives its entry, so processes can:
  `FlightPool.RetiredProcessOverlapsItsReplacement`, with `FlightPool.ProcessCapBreaksIff` exact.
- The comment on the process pool's `HealthCheckLoop` says that crashed workers with sessions trigger a crash
  notification.  An acquire that comes first cleans the entry away, and then it never does:
  `FlightPool.AcquireForgetsACrash`, with `FlightPool.CrashReportLostIff` exact.
- "Failed activations retire the worker immediately": a worker retired by somebody else in the meantime is
  put back to reserved instead, and stays so: `WorkerState.FailedActivationRevivesRetired`, with
  `WorkerState.FailureRetiresIffInPool` and `WorkerState.RetiredIsLeftIffRolledBack` exact.
- `RefreshOwnerEpochAtomic` keeps row and entry together only if the store's answer arrives.  Behind a bump
  whose answer was lost, an entry may be reported under a lease its row has left
  (`HealthChecks.LostAnswerLeavesTheRowAhead`) or wait for ever to be reported;
  `HealthChecks.NotifiedUnderTheLeaseOfTheRow` and `HealthChecks.NextTickReportsIff` are exact.
- Without a runtime store the cleaner removes a dead worker before any health check can report it:
  `HealthChecks.CleanerLosesTheReportIff`.
- An org whose stack is missing although it is up in both snapshots is not picked up:
  `OrgRouting.MissedSnapshotLeavesNoStack`; `OrgRouting.OneCallReachesTheLevelIff` is exact.  It cannot
  happen when each call gets the snapshot reconciled before (`OrgRouting.StacksFollowTheLevel`).

## What the runs take from code outside them

The crash-detection runs restrict the labels that stand for the rest of the pool, and the theorems about
them rest on it:

- A lease is written to an entry, on insertion or by a claim, only if the worker has a row with at least
  its epoch, and only the row's own lease if the row is this control plane's.  A spawned worker is
  inserted under its fresh slot before it can be claimed (controlplane/k8s_pool.go:855-911), an adopted
  or reclaimed one gets the lease that its claim returned (controlplane/k8s_pool.go:1608-1648, 1753-1754).
- A lease written to an existing entry has a newer epoch (controlplane/k8s_pool.go:1638-1648; a claim
  raises the epoch).
- This control plane bumps the epoch of a worker in its map only through the entry
  (controlplane/worker_mgr.go:120-129, controlplane/shared_worker_activator.go:301).

## Model

| member | source | states |
|---|---|---|
| Activation.SameTenantRuntimeIsErasure | duckdbservice/activation.go:293-328 | the field-by-field comparison holds exactly when the payloads agree once identity, S3 credentials, the client secret and ten named fields of the DuckLake config are erased |
| Activation.ComparisonAsPromisedIff | duckdbservice/activation.go:288-328 | the comparison answers as its comment promises exactly when it says different or those ten fields agree |
| Activation.FirstAlone | duckdbservice/activation.go:41-160 | an undisturbed first request commits exactly in shared warm mode, for a named org, a positive epoch and a runtime that came up; otherwise it fails and changes nothing |
| Activation.ReuseAlone | duckdbservice/activation.go:41-273 | an undisturbed request to an activated worker succeeds exactly when org, epoch, worker id and runtime admit it and any secrets that are due, by the fields of both configs, get written; then its whole payload takes over, otherwise nothing changes |
| Activation.UnwrittenCredentialsAreRefused | duckdbservice/activation.go:186-240 | rotated credentials that could not be written are not committed |
| Activation.SnapshotMeaning | duckdbservice/activation.go:41-82 | which requests go on from the door, and that only one at a new epoch attaches anything |
| Activation.TakeoverChecks | duckdbservice/activation.go:61-75 | the unlocked checks of a takeover, in terms of the payload live at each |
| Activation.CommitFirstMeaning | duckdbservice/activation.go:120-160 | what the commit section of a first activation does, by the payload and owner fields it finds |
| Activation.CommitReuseMeaning | duckdbservice/activation.go:253-273 | what the commit section of a reuse does, by the payload it finds |
| Activation.ReuseKeepsUnreadIff | duckdbservice/activation.go:253-273 | it leaves the ten fields as they were exactly when it is refused or agrees on them |
| Activation.SpecVersionChangesUnderReuse | duckdbservice/activation.go:293-328 | an input: another spec version counts as the same runtime and is committed by a reuse |
| Activation.ExecKeepsInv | duckdbservice/activation.go:41-273 | every interleaving of first activations and reuses keeps the invariant over pool, commits and requests in flight |
| Activation.OneControlPlanePerEpoch | duckdbservice/activation.go:41-273 | no two control planes ever commit at the same owner epoch |
| Activation.PoolMirrorsLastCommit | duckdbservice/activation.go:120-160 | the pool's epoch, control plane and worker id are those of the last committed payload, and unset before the first |
| Activation.OwnershipOnlyMovesForward | duckdbservice/activation.go:162-273 | between any two points of a run the epoch does not fall, and the org and every field the runtime comparison reads are frozen once set |
| Activation.PositiveIdStays | duckdbservice/activation.go:52-75 | a positive first worker id never changes, though the reuse path checks it only before its unlocked phase |
| Activation.NonPositiveIdMoves | duckdbservice/activation.go:52-75 | for every first id that is not positive there is a run that changes it |
| Activation.WorkerIdKeptIffPositive | duckdbservice/activation.go:253-273 | the first worker id is kept in all runs if and only if it is positive |
| Activation.RequestsReturn | duckdbservice/activation.go:41-273 | every request gets closer to its return with each of its own steps, whatever others do |
| Activation.IdenticalActivationsAllSucceed | duckdbservice/activation.go:61-160 | any number of identical first activations whose attach succeeds all succeed, with exactly one commit |
| Activation.SessionPool.constructor | duckdbservice/activation.go:31-39 | a fresh pool has no activation and no owner |
| Activation.SessionPool.CommitReuseLocked | duckdbservice/activation.go:253-273 | the commit section of a reuse, equal to the step used in runs |
| Activation.SessionPool.CommitFirstLocked | duckdbservice/activation.go:120-160 | the commit section of a first activation, equal to the step used in runs |
| Activation.SessionPool.ActivateTenant | duckdbservice/activation.go:41-160 | one undisturbed request ends as the step machine does when run alone, which FirstAlone and ReuseAlone characterise |
| SessionManagement.GrantLoopFacts | controlplane/session_mgr.go:193-206 | the grant loop moves a prefix of the queue to granted, one slot each, and stops only with the queue empty or no slot free |
| SessionManagement.GrantFacts | controlplane/session_mgr.go:193-206 | granting keeps arrival order and leaves nobody queued at a free slot unless closed |
| SessionManagement.AcquireSlotMeaning | controlplane/session_mgr.go:140-152 | refused exactly when draining, admitted exactly at a free slot, otherwise queued last under a fresh ticket with nothing else changed |
| SessionManagement.ReleaseServesTheOldest | controlplane/session_mgr.go:178-206 | at an exhausted limit a released slot goes to the oldest waiter alone |
| SessionManagement.ClosedGrantsNothing | controlplane/session_mgr.go:193-196 | once a drain began, releasing and resizing grant nothing |
| SessionManagement.RegisterMeaning | controlplane/session_mgr.go:394-404 | registered exactly unless draining, and then in both maps and nowhere else |
| SessionManagement.DetachMeaning | controlplane/session_mgr.go:440-451 | detached exactly if registered, draining or not, and no other session with it |
| SessionManagement.RegisterKeepsIndex | controlplane/session_mgr.go:394-404 | registering a fresh PID keeps the index by worker sound, and complete if it was |
| SessionManagement.UnlinkKeepsIndex | controlplane/session_mgr.go:544-571 | detaching a session keeps the index sound, and complete if it was |
| SessionManagement.SessionLifecycle.constructor | controlplane/session_lifecycle.go:17-23 | starts open with nothing active |
| SessionManagement.SessionLifecycle.Begin | controlplane/session_lifecycle.go:25-50 | refused exactly when closed; otherwise counted under a new id with its cancel |
| SessionManagement.SessionLifecycle.EndCreation | controlplane/session_lifecycle.go:25-50 | drops the cancel and the count of that creation only |
| SessionManagement.SessionLifecycle.BeginCleanup | controlplane/session_lifecycle.go:52-66 | counted even when closed |
| SessionManagement.SessionLifecycle.EndCleanup | controlplane/session_lifecycle.go:52-66 | uncounts one cleanup and no creation |
| SessionManagement.SessionLifecycle.Close | controlplane/session_lifecycle.go:68-80 | closes for good and cancels exactly the creations in progress |
| SessionManagement.SessionManager.constructor | controlplane/session_mgr.go:76-86 | an empty manager with a fresh lifecycle |
| SessionManagement.SessionManager.GrantWaitersLocked | controlplane/session_mgr.go:193-206 | the loop grants as `Grant`, whose facts are proved |
| SessionManagement.SessionManager.FailWaitersLocked | controlplane/session_mgr.go:208-215 | fails every waiter and empties the queue |
| SessionManagement.SessionManager.RemoveWaiterLocked | controlplane/session_mgr.go:217-226 | removes that waiter and keeps the order of the others |
| SessionManagement.SessionManager.AcquireSlotLocked | controlplane/session_mgr.go:140-152 | refuses, admits or queues as AcquireSlotMeaning says |
| SessionManagement.SessionManager.ReleaseSlotLocked | controlplane/session_mgr.go:178-191 | frees a slot and grants |
| SessionManagement.SessionManager.SetMaxConnections | controlplane/session_mgr.go:89-94 | sets the limit and grants |
| SessionManagement.SessionManager.RegisterLocked | controlplane/session_mgr.go:394-404 | registers in both maps, or refuses when closed |
| SessionManagement.SessionManager.RemoveSessionFromWorkerLocked | controlplane/session_mgr.go:558-571 | takes one PID out of its worker's list and drops an empty list |
| SessionManagement.SessionManager.DetachSessionLocked | controlplane/session_mgr.go:544-556 | detaches from both maps and frees a local slot, or finds nothing |
| SessionRuns.ExecKeepsInv | controlplane/session_mgr.go:115-665 | every interleaving of creations, destructions, crash sweeps and drains keeps slots, queue, index and drain consistent |
| SessionRuns.SectionSlack | controlplane/session_mgr.go:115-206 | each critical section moves the slot counter by exactly what it moves among owners |
| SessionTheorems.SlotsAreConserved | controlplane/session_mgr.go:115-206 | active slots equal lease-less sessions plus creations holding a slot plus granted tickets, each with exactly one waiting creation |
| SessionTheorems.UnderflowGuardsNeverBind | controlplane/session_mgr.go:178-191 | whoever releases a slot finds the counter positive |
| SessionTheorems.NobodyOvertakes | controlplane/session_mgr.go:140-172 | before a drain a queue implies a positive, exhausted limit, so a newcomer is admitted only when nobody waits |
| SessionTheorems.GrantsFollowArrival | controlplane/session_mgr.go:187-226 | once a waiter is granted no earlier one is queued, then or later |
| SessionTheorems.LimitRespected | controlplane/session_mgr.go:89-94 | while a positive limit is not lowered, slots stay within it |
| SessionTheorems.IndexIsAlwaysSound | controlplane/session_mgr.go:544-571 | in every interleaving the index by worker holds registered sessions of that worker only, without duplicates |
| SessionTheorems.QuietIndexIsComplete | controlplane/session_mgr.go:600-665 | a condition on schedules alone: it misses none if no registration falls inside a crash sweep of its worker |
| SessionTheorems.IndexIsCompleteIff | controlplane/session_mgr.go:600-665 | the index misses no session at any point of a run if and only if every crash sweep of the run ends on a worker without sessions |
| SessionTheorems.LastSweepSection | controlplane/session_mgr.go:600-665 | the sweep's trailing delete keeps the index complete exactly when the worker has no session by then |
| SessionTheorems.SweepCanLoseASession | controlplane/session_mgr.go:600-665 | a run in which it does lose one |
| SessionTheorems.DrainLeavesNothing | controlplane/session_mgr.go:519-534 | when a drain returns there are no sessions, waiters, slots or active operations, in that and every later state |
| SessionTheorems.DrainTakesTwoRounds | controlplane/session_mgr.go:519-534 | no drain starts a third round, though closing is not under the manager lock |
| SessionTheorems.DrainWaitEnds | controlplane/session_lifecycle.go:82-89 | under every schedule that gives each operation its steps, no operation is left active and the waiting drain returns at its next step |
| SessionOperations.AloneIsARun | controlplane/session_mgr.go:235-665 | an undisturbed operation is one of the runs |
| SessionOperations.CreationSucceeds | controlplane/session_mgr.go:235-421 | with a free slot and a worker, a creation ends with its session in both maps and one more slot taken |
| SessionOperations.LeasedCreationSucceeds | controlplane/session_mgr.go:115-137 | under a cluster limiter it ends with a leased session and no local slot |
| SessionOperations.FailedCreationLeavesNoTrace | controlplane/session_mgr.go:247-252 | a creation that finds no worker leaves the manager as it was |
| SessionOperations.CancelledCreationLeavesNoTrace | controlplane/session_mgr.go:154-172 | a creation that gives up waiting leaves the queue as it was |
| SessionOperations.WaiterWakes | controlplane/session_mgr.go:154-172 | a granted waiter holds its slot even if its context is done, a failed one ends, any other waits on |
| SessionOperations.CreationRefusedByDrain | controlplane/session_lifecycle.go:25-34 | a creation that meets a drain at the door does nothing |
| SessionOperations.RegistrationMeetsDrain | controlplane/session_mgr.go:394-404 | one that meets it at registration registers nothing and gives its slot back |
| SessionOperations.DestructionAlone | controlplane/session_mgr.go:440-515 | a destruction takes away its session and no other, a second one nothing |
| SessionOperations.SweepAlone | controlplane/session_mgr.go:600-665 | a crash sweep removes exactly the sessions of its worker |
| SessionOperations.DrainAlone | controlplane/session_mgr.go:519-534 | a drain of an idle manager returns, in its first round if there is nothing to destroy and otherwise in its second, with every session gone and every waiter failed |
| RuntimeStore.ClaimMeaning | controlplane/configstore/store.go:1022-1159 | a claim finds an idle worker, a hot-idle one of the claiming org or a hot one at the expected epoch, and hands it over reserved, for that org and control plane, at the next epoch |
| RuntimeStore.LeaseMeaning | controlplane/configstore/store.go:1310-1449 | which states a lease statement applies to, for the holder's row alone, and what it writes |
| RuntimeStore.SnapshotMeaning | controlplane/configstore/store.go:1178-1257 | a snapshot retirement applies only to a row that still is as it was seen, in the states each variant allows, and spares the orphan of a live owner |
| RuntimeStore.UpsertMeaning | controlplane/configstore/store.go:959-976 | an upsert creates a row or overwrites one in use for a newer epoch or its holder |
| RuntimeStore.StatementIsLocal | controlplane/configstore/store.go:959-1565 | a statement touches its own row only |
| RuntimeStore.StatementEvolves | controlplane/configstore/store.go:959-1565 | no statement revives a terminal row, takes a draining row anywhere but to retired, lowers an epoch, or gives an epoch a second owner |
| RuntimeStore.FenceHolds | controlplane/configstore/store.go:959-1565 | the same between any two points of any run of statements by any control planes |
| RuntimeStore.SupersededLeaseIsDead | controlplane/configstore/store.go:1310-1449 | a lease once superseded never matches a bump, credential stamp, drain, lost or retire statement again |
| RuntimeStore.ClaimBeatsRetire | controlplane/configstore/store.go:1022-1257 | a snapshot taken at any time before a claim, takeover or refresh of the row can never retire it afterwards |
| RuntimeStore.ConfigStore.Run | controlplane/configstore/store.go:1178-1204 | a statement is one atomic update that reports whether its WHERE clause matched; an error leaves open whether it took effect |
| WorkerLifecycle.SnapshotRetireIsTerminal | controlplane/worker_lifecycle.go:77-178 | a snapshot retire that hits takes a live row to a terminal one |
| WorkerLifecycle.WorkerLifecycle.constructor | controlplane/worker_lifecycle.go:67-69 | no cleanup made yet |
| WorkerLifecycle.WorkerLifecycle.ScheduleCleanup | controlplane/worker_lifecycle.go:278-283 | calls the hook if there is one |
| WorkerLifecycle.WorkerLifecycle.RetireFromSnapshot | controlplane/worker_lifecycle.go:77-103 | cleanup exactly when its own CAS is known to have made the row terminal; a store error or an unsupported target reports an error and cleans nothing |
| WorkerLifecycle.WorkerLifecycle.RetireOrphanFromSnapshot | controlplane/worker_lifecycle.go:111-140 | the same, and never for a live owner |
| WorkerLifecycle.WorkerLifecycle.RetireIdleVariantFromSnapshot | controlplane/worker_lifecycle.go:150-178 | the same, for idle and hot-idle snapshots only |
| WorkerLifecycle.WorkerLifecycle.Transition | controlplane/worker_lifecycle.go:190-253 | lease transitions change the row as fenced, report misses and store errors apart, and schedule no cleanup |
| WorkerLifecycle.WorkerLifecycle.RefreshLease | controlplane/worker_lifecycle.go:264-273 | the new lease is the one the row then carries; a stale lease or a store error gets none |
| WorkerLifecycle.CleanedOnceAndNeverLive | controlplane/worker_lifecycle.go:77-283 | over any run with crashes and lost answers, each worker is cleaned at most once, after the service's own CAS, and its row is terminal then and ever after |
| WorkerLifecycle.CleanupExactlyForOwnCas | controlplane/worker_lifecycle.go:77-283 | without a crash or a lost answer in between, cleanups made or due are exactly the rows the service ended |
| Shutdown.ExecKeepsInv | controlplane/k8s_pool.go:2421-2533 | every interleaving of the shutdown loop with refreshes, sessions, pods and other control planes keeps the order of its steps |
| Shutdown.RetiredOnlyAfterPodDelete | controlplane/k8s_pool.go:2402-2533 | at every crash point: retired by this path implies pod delete confirmed implies row drained; an unconfirmed delete is never followed by retired; what is preserved is never drained, deleted or retired |
| Shutdown.PreservedIsUntouched | controlplane/k8s_pool.go:2457-2462 | in every run, no step of the path changes row or pod of a worker that it preserves at any time, before or after |
| Shutdown.DrainedIsNeverClaimed | controlplane/k8s_pool.go:2402-2420 | from its drain on, no claim, takeover or upsert can hit a worker being torn down |
| Shutdown.LoopWritesOnlyItsTurn | controlplane/k8s_pool.go:2439-2520 | a step touches no row or pod but that of the worker whose turn it is, and none at the session check |
| Shutdown.TurnRetiresIffPodDeletes | controlplane/k8s_pool.go:2439-2520 | an undisturbed turn leaves the row alone, draining or retired, according to sessions, lease, state and how each of its three calls ends |
| Shutdown.StepwiseTurnIsShutRow | controlplane/k8s_pool.go:2439-2520 | undisturbed, the stepwise turn of the runs leaves the rows and pods of the sequential one |
| Shutdown.WorkerPool.ShutdownWorker | controlplane/k8s_pool.go:2439-2520 | one worker's turn, store and delete errors included: its row as stated above, its pod gone exactly when a delete got through |
| Shutdown.WorkerPool.ShutdownAll | controlplane/k8s_pool.go:2421-2533 | in any order of workers each row ends as its own turn leaves it, exactly the pods whose delete got through are gone, and exactly the workers with sessions stay; a second call does nothing |
| HealthChecks.ExecKeepsInv | controlplane/k8s_pool.go:2215-2400 | every interleaving of health checks, cleaner passes, lease changes and statements keeps each verdict in flight justified by the rows |
| HealthChecks.NotifiedAtMostOnce | controlplane/k8s_pool.go:2250-2308 | no map entry is reported twice, and a reported entry is gone |
| HealthChecks.NotifiedOnlyForCrashes | controlplane/k8s_pool.go:2946-2998 | every report is for a lease of this control plane whose row says lost by a crash, for good |
| HealthChecks.NotifiedUnderTheLeaseOfTheRow | controlplane/k8s_pool.go:2946-3024 | never for a stale lease: a step of any run reports nothing, or one entry, which it removes, under the entry's lease and on a crashed row of this control plane; the row holds that very lease then if and only if the entry is not behind a bump whose answer was lost |
| HealthChecks.LostAnswerLeavesTheRowAhead | controlplane/worker_mgr.go:120-129 | a run in which such a bump falls between verdict and report |
| HealthChecks.CrashIsNeverLost | controlplane/k8s_pool.go:2795-2854 | once the row says crash under the entry's own lease, nothing but another retirement path removes the entry unreported |
| HealthChecks.NextTickReportsIff | controlplane/k8s_pool.go:2250-2308 | an undisturbed health check of such an entry removes and reports it, exactly unless the entry is behind a lost bump, and then leaves it as it is |
| HealthChecks.JudgeMeaning | controlplane/k8s_pool.go:2946-2998 | a lease is reported exactly when its row is, or by this call becomes, lost by a crash at that very lease; retried exactly when the row is ours at another epoch; a store error can only turn a verdict into a retry |
| HealthChecks.CleanerLeavesTheReport | controlplane/k8s_pool.go:2795-2854 | after the cleaner's check, whatever its replies, a health check still reports, or drops, exactly what it would have before |
| HealthChecks.CleanerLosesTheReportIff | controlplane/k8s_pool.go:2804-2823 | the cleaner takes away a worker that a health check would report exactly when the pool has no runtime store |
| HealthChecks.WithoutStoreEveryDeathIsACrash | controlplane/k8s_pool.go:2946-2949 | without a store every dead worker is reported as crashed and no row is touched |
| HealthChecks.StepwiseCheckIsJudge | controlplane/k8s_pool.go:2250-2308 | undisturbed, a check of the runs removes, drops, reports or leaves its entry as the verdict says, the cleaner's never reporting |
| HealthChecks.OwnerlessWorkerIsReported | controlplane/k8s_pool.go:2921-2931 | a dead worker without an owner counts as this control plane's, and its check reports it |
| HealthChecks.HealthMonitor.MarkWorkerLostForHealthLease | controlplane/k8s_pool.go:2946-2998 | the verdict and the row it leaves, with store errors and without a store; a crash verdict means the row is lost under that very lease |
| HealthChecks.HealthMonitor.RemoveIfSameLeaseLocked | controlplane/k8s_pool.go:3000-3024 | removes the entry exactly when it still holds the lease |
| HealthChecks.HealthMonitor.HandleDeadWorker | controlplane/k8s_pool.go:2252-2308 | removes unless told to retry or failed by the store, reports exactly on a crash verdict |
| HealthChecks.HealthMonitor.CleanDeadWorkersLocked | controlplane/k8s_pool.go:2795-2854 | in any order, drops exactly the dead workers under a stale lease, or all dead ones without a store, leaves them on errors, and reports none |
| WorkerState.AllowedIsEdges | controlplane/worker_state.go:115-135 | the transitions allowed are exactly the twelve listed edges |
| WorkerState.ValidateMeaning | controlplane/worker_state.go:48-70 | idle means unassigned, retired may be either, every other state belongs to a named org |
| WorkerState.TransitionSucceedsIff | controlplane/worker_state.go:75-113 | a transition succeeds exactly when the state is valid, the edge is listed and the assignment offered fits the one held, and what it then yields |
| WorkerState.TransitionMeaning | controlplane/worker_state.go:75-159 | it reaches a valid state, keeps a set org, never enters idle and never leaves retired |
| WorkerState.LastSessionIdles | controlplane/k8s_pool.go:1304-1337 | the last session of a hot worker leaves it hot idle with its assignment, an earlier one only counts down |
| WorkerState.OtherSessionEnds | controlplane/k8s_pool.go:1304-1321 | any other session end only counts down, and does nothing out of the pool |
| WorkerState.ClaimReserves | controlplane/k8s_pool.go:1638-1665 | a claim that is not stale reserves an idle worker, or a hot-idle one of its own org, and no other |
| WorkerState.StaleOrRepeatedClaim | controlplane/k8s_pool.go:1638-1646 | a stale claim, or one already under way, changes nothing |
| WorkerState.ActivationSteps | controlplane/k8s_pool.go:1349-1430 | what each step of an activation does from reserved: activating, hot, back, retired |
| WorkerState.ActivationNeedsReservation | controlplane/k8s_pool.go:1371-1373 | no activation begins from any other state |
| WorkerState.OrgPathAlone | controlplane/org_reserved_pool.go:240-285 | the org pool's own path, undisturbed, leads from reserved to hot, or to retired out of the pool |
| WorkerState.ExecKeepsInv | controlplane/k8s_pool.go:1304-1430 | every run of claims, activations, sessions and retirements keeps the state valid and each rollback state consistent with it |
| WorkerState.OrgNeverChanges | controlplane/k8s_pool.go:1600-1673 | over every run, rollbacks included, an assigned org stays, the worker is never idle again, and a positive epoch never falls |
| WorkerState.RetiredIsLeftIffRolledBack | controlplane/k8s_pool.go:1397-1405 | retired is left exactly by the rollback of an activation that began from reserved |
| WorkerState.FailedActivationRevivesRetired | controlplane/k8s_pool.go:1397-1405 | a run in which that happens and the worker stays reserved, out of the pool |
| WorkerState.FailureRetiresIffInPool | controlplane/k8s_pool.go:1397-1405 | a failed activation from reserved ends with a retired worker exactly when the worker is still in the pool |
| WorkerState.ManagedWorker.constructor | controlplane/worker_mgr.go:28-64 | a new worker is unassigned |
| WorkerState.ManagedWorker.SetSharedState | controlplane/worker_mgr.go:68-74 | sets a valid state, refuses any other |
| WorkerState.ManagedWorker.ReserveClaimedWorker | controlplane/k8s_pool.go:1626-1665 | refuses stale and duplicate claims; succeeds exactly for an idle worker or a hot-idle one of that org, and is then reserved for it under that lease |
| WorkerState.ManagedWorker.ActivateReservedWorker | controlplane/k8s_pool.go:1349-1430 | undisturbed, hot with its assignment kept, or retired if it fails in the pool; any other state is refused untouched |
| WorkerState.ManagedWorker.RetireWorkerWithReason | controlplane/k8s_pool.go:1232-1247 | retires a worker found in the pool and takes it out |
| WorkerState.ManagedWorker.TransitionToHotIdleIfNoSessions | controlplane/k8s_pool.go:1304-1337 | returns true exactly for the last session of a pooled hot worker, which is then hot idle with its org; otherwise only the count changes |
| FlightPool.AcquireMeaning | controlplane/worker_mgr.go:667-743 | whoever dies while the first critical section looks: no live worker appears, the cap has room for every spawn reserved, a busy worker is shared only at the cap, and it retries only while spawns fill the cap |
| FlightPool.AcquireDecides | controlplane/worker_mgr.go:667-743 | an idle worker if the scan finds one alive, else a new one below the cap, else the least loaded alive, else a replacement unless spawns fill the cap |
| FlightPool.SpawnAlone | controlplane/worker_mgr.go:690-716 | a spawn that comes up ends with its worker in the pool, one session on it, and uncounted; a failed one only uncounted |
| FlightPool.ReplacementSpawnIff | controlplane/worker_mgr.go:730-743 | the replacement at the end is spawned exactly when the idle scan finds nobody, the count is at the cap, everybody counted is dead by the least-loaded scan, and the limit is negative or not used up by spawns under way |
| FlightPool.ReplacementNeedsADeath | controlplane/worker_mgr.go:730-743 | under a positive limit that takes a worker alive at the count, and the death of all such between the count and the next scan |
| FlightPool.LastWorkerDiesAtTheCap | controlplane/worker_mgr.go:688-743 | the input: limit 1 and one busy worker that dies there |
| FlightPool.ExecKeepsInv | controlplane/worker_mgr.go:661-790 | every interleaving of acquires, spawns, releases, removals and deaths, also deaths inside a critical section, keeps counter, cap and ids consistent |
| FlightPool.NeverAboveTheCap | controlplane/worker_mgr.go:661-767 | live entries plus spawns not yet inserted never exceed a positive limit, wherever workers die |
| FlightPool.SpawningIsExact | controlplane/worker_mgr.go:690-699 | `spawning` equals the spawns under way, so it is zero when none is |
| FlightPool.SpawnsHaveFreshIds | controlplane/worker_mgr.go:690-695 | no two spawns share an id and none overwrites an entry |
| FlightPool.ProcessesAboveCapAreExiting | controlplane/worker_mgr.go:651-767 | processes exceed the limit at most by those of removed workers still exiting |
| FlightPool.ProcessCapBreaksIff | controlplane/worker_mgr.go:651-767 | a step takes the processes above the limit exactly when it spawns and sees as many running, coming up or exiting |
| FlightPool.RetiredProcessOverlapsItsReplacement | controlplane/worker_mgr.go:927-942 | a run that does |
| FlightPool.CrashReportLostIff | controlplane/worker_mgr.go:903-912 | the entry of a dead worker is taken away unreported, then and for good, exactly by a retirement or by an acquire, whose cleaning comes before the health check |
| FlightPool.ReportedAtMostOnce | controlplane/worker_mgr.go:1133-1160 | no worker is reported twice, and a reported one is out of the map |
| FlightPool.AcquireForgetsACrash | controlplane/worker_mgr.go:674 | a run that loses the report of a worker with a session |
| FlightPool.FlightWorkerPool.constructor | controlplane/worker_mgr.go:176-190 | an empty pool |
| FlightPool.FlightWorkerPool.SpawnAll | controlplane/worker_mgr.go:613-643 | pre-warm succeeds exactly when all workers come up, and then every id is below the next one |
| FlightPool.FlightWorkerPool.CleanDeadWorkersLocked | controlplane/worker_mgr.go:903-912 | removes exactly the dead entries |
| FlightPool.FlightWorkerPool.FindIdleWorkerLocked | controlplane/worker_mgr.go:851-863 | a live worker without sessions, or none exists |
| FlightPool.FlightWorkerPool.LeastLoadedWorkerLocked | controlplane/worker_mgr.go:867-880 | a live worker with the fewest sessions, or none is live |
| FlightPool.FlightWorkerPool.LiveWorkerCountLocked | controlplane/worker_mgr.go:887-898 | spawns under way plus live entries |
| FlightPool.FlightWorkerPool.AcquireLocked | controlplane/worker_mgr.go:667-743 | the section as used in runs, whichever worker the map order finds and whoever dies between its looks |
| FlightPool.FlightWorkerPool.ReleaseWorker | controlplane/worker_mgr.go:770-790 | gives back one session and removes the worker exactly if none is left and it serves one session only |
| FlightPool.FlightWorkerPool.RetireWorkerIfNoSessions | controlplane/worker_mgr.go:947-971 | gives back one claim and removes the worker exactly when that was the last |
| OrgRouting.StacksFollowTheLevel | controlplane/org_router.go:227-336 | over every history of snapshots the stacks are exactly those wanted, with worker limit, connection limit and image of the latest snapshot |
| OrgRouting.CallFollowsHistory | controlplane/org_router.go:227-336 | a router that followed a history is again at the wanted stacks after one more call |
| OrgRouting.UpMeansServed | controlplane/org_router.go:227-336 | a ready or absent warehouse always means a stack; an absent, deleting or deleted org never has one |
| OrgRouting.ServedByWarehouse | controlplane/org_router.go:227-281 | over every history: served with no or a ready warehouse, not served when absent, deleting or deleted, as before when pending, provisioning or failed |
| OrgRouting.ServedByConfig | controlplane/org_router.go:100-110 | a stack has its config's worker limit or the default for zero, its connection limit, and the warehouse's image or the default where none is named |
| OrgRouting.MissedSnapshotLeavesNoStack | controlplane/org_router.go:252-272 | an org up in both snapshots without a stack gets none |
| OrgRouting.OneCallReachesTheLevelIff | controlplane/org_router.go:227-336 | for any `old`, a call ends at the level exactly when the difference it sees covers what was out of date |
| OrgRouting.OrgRouter.constructor | controlplane/org_router.go:81-92 | the initial stacks are the orgs that are up |
| OrgRouting.OrgRouter.CreateOrgStack | controlplane/org_router.go:100-176 | a new stack has the limits and image its config calls for |
| OrgRouting.OrgRouter.DestroyOrgStack | controlplane/org_router.go:179-198 | takes that stack away and no other |
| OrgRouting.OrgRouter.AppearPass | controlplane/org_router.go:228-273 | the first loop creates and destroys per org, in any order |
| OrgRouting.OrgRouter.RemovePass | controlplane/org_router.go:275-281 | the second loop removes exactly the orgs that disappeared |
| OrgRouting.OrgRouter.RefreshPass | controlplane/org_router.go:283-334 | the third loop refreshes per org exactly what changed |
| OrgRouting.OrgRouter.HandleConfigChange | controlplane/org_router.go:227-336 | the three loops together reconcile every org on its own |
| WarmCapacity.TrimMeaning | controlplane/warm_capacity_targets.go:83-104 | trimming takes off exactly the spaces at both ends |
| WarmCapacity.DemandMeaning | controlplane/warm_capacity_targets.go:85-101 | an aggregate is demand exactly for a positive count, no reason or no idle worker, and the scope of a named image |
| WarmCapacity.ImageDemand | controlplane/warm_capacity_targets.go:85-101 | an image's own aggregate is demand for it, count for count |
| WarmCapacity.MissCountsSound | controlplane/warm_capacity_targets.go:83-104 | the counts are, per image, the sums of exactly the demand for it |
| WarmCapacity.ImageMissCounts | controlplane/warm_capacity_targets.go:83-104 | the loop computes them |
| WarmCapacity.CeilDivIsLeast | controlplane/warm_capacity_targets.go:169-178 | the least number of workers whose shares cover the misses |
| WarmCapacity.NoMissesNoWorkers | controlplane/warm_capacity_targets.go:169-178 | no misses need no worker, and a rate that is not positive means eight |
| WarmCapacity.RankIsStrictTotal | controlplane/warm_capacity_targets.go:128-138 | misses, then request, then name is a strict total order, so the result cannot depend on iteration order |
| WarmCapacity.MostMissedFirst | controlplane/warm_capacity_targets.go:128-154 | whoever gets anything has everyone with more misses, or as many and a larger request, or both equal and a smaller name, served in full |
| Sums.LessIsStringOrder | controlplane/warm_capacity_targets.go:137 | the order on names is that of strings: a proper prefix, or the smaller character where they first differ |
| WarmCapacity.ServesAPrefix | controlplane/warm_capacity_targets.go:106-155 | whoever gets anything has everyone before it in full; whoever is served short has nobody after it served |
| WarmCapacity.OnePartialAtMost | controlplane/warm_capacity_targets.go:106-155 | at most one image is served in part |
| WarmCapacity.MonotoneInCap | controlplane/warm_capacity_targets.go:106-155 | a larger cap takes nothing from any image |
| WarmCapacity.SortByRank | controlplane/warm_capacity_targets.go:128-138 | the sorted sequence has the same images, in rank order |
| WarmCapacity.CollectEligible | controlplane/warm_capacity_targets.go:112-120 | collects each eligible image once, with their total |
| WarmCapacity.TakeAll | controlplane/warm_capacity_targets.go:121-126 | when everything fits, everything is the allocation |
| WarmCapacity.TakeInOrder | controlplane/warm_capacity_targets.go:140-154 | the serving loop yields the order-free allocation |
| WarmCapacity.CapExtras | controlplane/warm_capacity_targets.go:106-155 | so does the whole operation, for every cap and iteration order |
| WarmTargets.AllocationTotal | controlplane/warm_capacity_targets.go:106-155 | the allocation hands out exactly the smaller of cap and total request |
| WarmTargets.TargetsTotal | controlplane/warm_capacity_targets.go:18-65 | the extra total is exactly the minimum of request, dynamic ceiling and global headroom, each where configured |
| WarmTargets.CeilingsMeaning | controlplane/warm_capacity_targets.go:18-55 | switched off nothing is added; on, the extra is within the request and every positive ceiling, and meets one of them |
| WarmTargets.RequestMeaning | controlplane/warm_capacity_targets.go:25-35 | an image asks for the least number of workers that covers its misses at the configured rate, within its ceiling |
| WarmTargets.TargetsPerImage | controlplane/warm_capacity_targets.go:18-65 | no target falls below its base, no extra exceeds its own demand or the image ceiling |
| WarmTargets.TargetsWithinCap | controlplane/warm_capacity_targets.go:40-64 | the total stays within the larger of base total and worker cap |
| WarmTargets.GlobalCapIsACeiling | controlplane/warm_capacity_targets.go:40-55 | the global cap acts on the extra total as one more ceiling |
| WarmTargets.CapBlocksIffCapBinds | controlplane/multitenant.go:541-557 | on the allocator's own output the shortcut says blocked if and only if dropping the cap would raise the total |
| WarmTargets.CleanNamesSanitizeOneWay | controlplane/warm_capacity_targets.go:157-167 | when names that trim alike agree, sanitizing has one result |
| WarmTargets.SanitizeTargets | controlplane/warm_capacity_targets.go:157-167 | keeps every usable entry under its trimmed name and nothing else |
| WarmTargets.SumPositive | controlplane/warm_capacity_targets.go:180-188 | the sum of the positive entries, in any order |
| WarmTargets.RequestExtras | controlplane/warm_capacity_targets.go:25-35 | the request per image after its ceiling |
| WarmTargets.AddExtras | controlplane/warm_capacity_targets.go:57-63 | adds the extras to the base targets |
| WarmTargets.ComputeTargets | controlplane/warm_capacity_targets.go:18-65 | the whole computation yields the targets the theorems are about |
| WarmTargets.GlobalCapBlocksDemand | controlplane/multitenant.go:541-557 | its answer is the shortcut's predicate on a sanitized base, and on every one when names that trim alike agree |

## Left out

- Kubernetes, gRPC, Flight, STS, TLS, DuckDB and the database connection: foreign calls, present only as outcomes.
- Metrics, logging, tracing, signals, configuration loading and merging, the SQL catalogue of the server.
- Clocks and timers: a timeout is an event that may happen at any time; integers do not overflow, so the wrap of the PID counter is not modelled and PIDs of concurrent creations are distinct.
- Agreement between the secret installed in DuckDB and the committed payload under overlapping refreshes: the code does not order the two.
- CreateSession, ReconnectFlightSession, OnWorkerCrash and DestroyAllSessions as methods: they appear as threads of the run model, whose sections are the methods of SessionManager; ReconnectFlightSession runs the same sections.
- The cluster-wide connection limiter: it returns a lease or an error; its queue and retries are not modelled, nor that a limiter without a store would return neither, whose session would give back a local slot it never took.
- Row selection and capacity counting inside a claim statement: the caller of the model names the row; any row that the WHERE clause admits may be claimed.
- Health checks: the count of consecutive probe failures is not modelled, a check may begin at any time; the runs have a runtime store, the object's methods also do without one.
- Pod deletion and warm replacement after a crash report.
- OrgReservedPool's own worker cap: it is checked and released before the reservation.
- Per-org CPU and memory overrides in the router: they set defaults of the shared pool, the last writer wins.
- Liveness inside one scan of the process pool: a scan looks at each worker once, so a death during it is a death before or after that look, and the scanning methods take liveness as fixed.
- The idle reaper's choice of workers and the metrics fields of a worker; removal by the reaper is a removal of the run model.
- SpawnAll starts its workers one after another here, in parallel in the code, before anything acquires.
- Unicode spaces beyond Latin-1 in trimmed names.
- WarmCapacity.SortByRank: an insertion sort in place of the library sort; the order is strict, so the result is the same.
- Base names that trim to the same image with different targets: sanitizing then depends on map order, in the model as in the code, and WarmTargets.CapBlocksIffCapBinds speaks of one sanitized base.
- RuntimeStore.StatementEvolves: image, timestamps other than the update time, and credentials of a row are not modelled.
