# llm-swap model

A model of the fleet manager's coordination logic: a gateway that hands out configurations,
leases, permits and restarts, and agents that install artifacts, keep a tunnel and restart
their model server. `dafny verify dfyconfig.toml` checks all of it.

Stateful Go types are classes with the same fields, and their loops are loops; each method is
proved against a function of the old state, and what holds over whole runs is proved about
those functions. Calls into the file system, the network, the clock and random ids are
parameters or arbitrary values, so every theorem holds for whatever they answer.

| file | what it models |
|---|---|
| `ArtifactFences.dfy` | install fences and commits in one model directory, any number of installers |
| `ModelIdentity.dfy`, `GatewayConfig.dfy` | configurations, directory identities and their validation |
| `ArtifactReconcile.dfy` | one agent's pass over its artifacts: supersede, cancel, tombstone, start |
| `FleetFences.dfy` | revisions and fences end to end, agents of several systems sharing model roots |
| `ConfigManager.dfy` | revisions, hot apply, service-name promotion and rollback |
| `TransportLeases.dfy`, `TransportLeaseRuns.dfy` | the gateway's lease manager, and its runs |
| `TransportLoop.dfy` | the agent's transport loop against a monitor of its actions |
| `WorkerRegistry.dfy`, `WorkerRegistryRuns.dfy` | restart locks, drains and admission |
| `QueueLimiter.dfy` | the first-in first-out limiter with hand-off of permits |
| `ProxyDispatch.dfy`, `Accounting.dfy` | the retry loop with its nested permits, and the counts of requests |
| `RestartMarker.dfy`, `RestartMarkerRuns.dfy` | the crash-safe restart-pending marker, and its runs |
| `Placement.dfy`, `PlacementPlans.dfy`, `PlacementOutcomes.dfy` | picking workers, planning loads and evictions, and what plans lead to |
| `BillingSweep.dfy`, `BillingAllocation.dfy`, `BillingAliases.dfy`, `BillingApps.dfy` | sharing worker time, rounding to micros, alias rows, application charges |
| `ShellQuoting.dfy` | quoting against the tokenizer and against a POSIX shell |
| `Basics.dfy`, `Sorting.dfy`, `Sums.dfy`, `Tallies.dfy` | text, sorting, finite sums, adding up requests |

## Where the code does less than one would expect

Each of these is proved with the exact condition.

- A promotion that takes the name out of a tag that allows nothing else, or that allowed
  nothing and only warmed it when idle, can never be rolled back: the archive holds an empty
  list, the live copy a nil one (`RollbackAcceptedExactly`, `EmptiedTagExample`).
- A restart list that names a model `*` beside others takes the global lock while another
  worker restarts (`HeartbeatKeepsExclusionExactly`).
- When a limit rises a newcomer overtakes waiters (`OvertakesExactly`).
- Pruning a busy offline worker loses its count (`CountStaysExactExactly`).
- A commit that reports failure has replaced the directory when only the old copy could not be
  deleted, and has lost it when the new copy could not be moved in nor the old one back
  (`FailedCommitKeepsExactly`, `FailedCommitReplacesExactly`, `FailedCommitLosesExactly`).
- Fences at revision 0 have no order (`FlipsExactly`).
- A gateway on Unix accepts directories that differ in case only; Windows agents of one
  revision then fence each other out (`ClashExactly`, `WindowsCoherentExactly`).
- A model that starts between the agent's look at the running models and its unmarked write
  goes unrecorded (`StepKeepsExactly`, `RacedExample`).
- A worker that lists a model twice counts as two replicas (`FloorHoldsExactly`,
  `ListedTwiceExample`), and the victim for a floor is chosen whether or not its worker is
  healthy (`FloorVictimHealthyExactly`).
- The tokenizer does not undo the quoting of empty arguments and backslashes
  (`RoundTripExactly`).

## Model

| member | source | states |
|---|---|---|
| `ArtifactFences.ModelDirectory.PublishFence` | internal/agent/artifacts.go:434-455 | publishing returns the stored fence unless the desired one advances it; an unreadable fence or a failed write changes nothing |
| `ArtifactFences.ModelDirectory.CommitStaged` | internal/agent/artifacts.go:702-753 | one locked commit: superseded unless its own fence is stored, already installed on a matching marker, otherwise the replaced directory |
| `ArtifactFences.ModelDirectory.ReplaceDir` | internal/agent/artifacts.go:905-938 | every outcome of moving the old directory aside, the staged one in and the old one away, with a crash in between |
| `ArtifactFences.FenceNeverGoesBack` | internal/agent/artifacts.go:434-466 | over every run of any number of installers the stored revision never decreases, and at a revision other than 0 the fence never changes |
| `ArtifactFences.RevisionZeroFlips` | internal/agent/artifacts.go:457-462 | at revision 0 two installers can overwrite each other back and forth |
| `ArtifactFences.FlipsExactly` | internal/agent/artifacts.go:457-462 | a fence that was replaced by another can come back, by some run of publications, if and only if both are of revision 0 |
| `ArtifactFences.CommitsUnderOwnFence` | internal/agent/artifacts.go:702-753 | a step replaces the directory only as a commit of an installer whose fence is the stored one, and puts that installer's artifact there |
| `ArtifactFences.StepKeepsInv` | internal/agent/artifacts.go:702-753 | each step keeps the commits in order and behind the stored fence, and the directory content the one committed last |
| `ArtifactFences.CommitsInOrder` | internal/agent/artifacts.go:434-466 | over every run committed revisions never go down, and equal non-zero revisions are the same fence |
| `ArtifactFences.NoLowerRevisionInstalls` | internal/agent/artifacts.go:702-753 | once a fence is published no later commit is of a lower revision or, at its revision, of another artifact; other content was there before |
| `ArtifactFences.OvertakenInstallerLoses` | internal/agent/artifacts.go:715-725 | an installer whose revision was overtaken can at any later time only be told it is superseded, and leaves the disk alone |
| `ArtifactFences.CommitInstallsExactly` | internal/agent/artifacts.go:702-753 | a commit installs if and only if its fence is current, the marker is readable and another, and no file operation fails; then the directory holds its artifact |
| `ArtifactFences.CommitStandsBackExactly` | internal/agent/artifacts.go:715-731 | it does nothing for another's fence, nor when the marker is already its own, and says so in exactly these cases |
| `ArtifactFences.UndisturbedInstallExactly` | internal/agent/artifacts.go:434-466 | an install that nothing disturbs ends with its artifact in the directory if and only if no fence is stored that it may not replace and the marker there can be read |
| `ArtifactFences.FailedCommitKeepsExactly` | internal/agent/artifacts.go:702-753 | a commit that reports failure leaves the disk as it was if and only if it did not move the old directory aside and then fail to delete it, or to move either copy in |
| `ArtifactFences.FailedCommitReplacesExactly` | internal/agent/artifacts.go:702-753 | it reports failure with the new copy in place if and only if all went well but deleting the old copy |
| `ArtifactFences.FailedCommitLosesExactly` | internal/agent/artifacts.go:926-931 | it reports failure with the directory gone if and only if the new copy could not be moved in nor the old one back |
| `ArtifactFences.FailedCleanupStillReplaces` | internal/agent/artifacts.go:905-938 | answers with which a failed commit has replaced the directory |
| `ArtifactFences.FailedRestoreLosesDirectory` | internal/agent/artifacts.go:926-931 | answers with which a failed commit has lost it |
| `ModelIdentities.CheckModelDir` | internal/config/model_identity.go:56-70 | a model directory is accepted exactly when a configured one is trimmed, safe and no source basename, and it is not the lock directory |
| `ModelIdentities.CollectBasenames` | internal/config/model_identity.go:46-50 | the base names of all artifact sources |
| `ModelIdentities.CheckAliases` | internal/config/model_identity.go:76-92 | aliases are accepted exactly when alias and target are trimmed and non-empty, the alias is no model and the target is one |
| `ModelIdentities.ValidateModelIdentities` | internal/config/model_identity.go:39-94 | accepts exactly the configurations whose directories are acceptable and pairwise different under the system's identity, and whose aliases are |
| `ModelIdentities.SafeNameIdentity` | internal/config/model_identity.go:24-33 | a safe directory name is its own identity, up to case on Windows |
| `ModelIdentities.SafeNamesValidExactly` | internal/config/model_identity.go:39-94 | models with safe names and directories of their own are accepted if and only if none is the lock directory, no two differ in case only on Windows, and every alias is a trimmed new name of one of them |
| `ModelIdentities.IndexAllowed` | internal/gateway/server.go:452-463 | one allow list adds a directory for each new identity and keeps the first of a known one |
| `ModelIdentities.ListIndexed` | internal/gateway/server.go:464-468 | the list has one directory for each indexed identity and no identity twice |
| `ModelIdentities.DesiredModelDirs` | internal/gateway/server.go:449-470 | the list covers the identity of every model some tag allows, holds only such directories, and none twice |
| `ModelIdentities.ListsEveryDir` | internal/gateway/server.go:449-470 | for a validated configuration the list is exactly the directories of all wanted models, so it does not matter which system reads it |
| `GatewayConfig.KeepKeeps` | internal/gateway/active_config.go:18-25 | filtering an allow list keeps exactly the names of active models |
| `ArtifactReconcile.ArtifactInstaller.Publish` | internal/agent/reconcile.go:468-474 | given the answers of lock, read and write: it fails exactly when one of them does where it is needed, and else leaves the fence the publishing rule gives; what it writes is on record |
| `ArtifactReconcile.ArtifactInstaller.IndexDesired` | internal/agent/reconcile.go:428-439 | every allowed model's directory has an entry, and each entry is the fence of an allowed model in that directory |
| `ArtifactReconcile.ArtifactInstaller.FenceOff` | internal/agent/reconcile.go:452-474 | if another allowed model claims the directory, or no tag wants it, the stored revision has reached the reply's after a successful publication |
| `ArtifactReconcile.ArtifactInstaller.CancelRemoved` | internal/agent/reconcile.go:440-480 | while others publish: installs of models no longer allowed are forgotten when finished, cancelled and kept when running; claimed directories are fenced off; every fence the pass writes is one the reply allows |
| `ArtifactReconcile.ArtifactInstaller.ReconcileModel` | internal/agent/reconcile.go:488-562 | an error exactly when the publication failed, the marker cannot be read, or its install had finished with this key; ready exactly when the marker matches under the own fence; it starts the install, and reports it, exactly when the own fence is current, the marker differs, none of this model is running or finished, and one may start; an install of another key is cancelled |
| `ArtifactReconcile.ArtifactInstaller.InstallAllowed` | internal/agent/reconcile.go:418-637 | a whole pass, with any publications of others in between: each allowed model has its turn in order and comes out as its answers call for; at most one install runs and none is forgotten; one is started only when none ran, and if none ran and a model is due one runs afterwards; every fence written is one the reply allows; at the end a ready model's marker matched and its fence is stored or overtaken by a later revision (or, at revision 0, another of that revision), and a model with a current fence of another revision than 0 waits only while something is being installed |
| `ArtifactReconcile.ArtifactInstaller.TakeTurn` | internal/agent/reconcile.go:488-562 | one model's turn in such a pass |
| `ArtifactReconcile.ArtifactInstaller.ApplyInstallResult` | internal/agent/reconcile.go:409-416 | a result ends the running install of the same key, and is dropped otherwise |
| `ArtifactReconcile.ForwardComposes` | internal/agent/artifacts.go:457-466 | any publications by any publishers amount to one step forward of the fence |
| `ArtifactReconcile.KeptStays` | internal/agent/artifacts.go:457-466 | an established fence stays until a later revision comes, or at revision 0 another of that revision, whoever publishes |
| `ArtifactReconcile.ReachedStays` | internal/agent/artifacts.go:457-466 | a fence that has reached a revision is replaced by later ones only, or at revision 0 by others of that revision |
| `FleetFences.MatchedTag` | internal/gateway/server.go:561-581 | the matched tag is the only configured tag among the given ones, and there is none unless exactly one matches |
| `FleetFences.HandleAgentConfig` | internal/gateway/server.go:387-409 | a reply is one snapshot's answer: revision, the tag's active allow list with its models, and every wanted directory |
| `FleetFences.RepliesAreActive` | internal/gateway/server.go:387-409 | a reply names no disabled model, and every active model its tag allows |
| `FleetFences.LegalFits` | internal/agent/reconcile.go:428-480 | whatever system reads a reply, a fence it allows is a wanted model's artifact in that directory or a removal no tag objects to |
| `FleetFences.StepKeepsInv` | internal/gateway/config_manager.go:259-317 | naming a configuration, wasting a revision and publishing keep every stored fence true of the configuration its revision names |
| `FleetFences.FencesFollowTheirRevision` | internal/gateway/config_manager.go:259-317 | over every run each stored fence says what its revision's configuration says, and a revision never names another configuration |
| `FleetFences.TombstonesAreUnwanted` | internal/agent/reconcile.go:452-467 | a removal fence on disk is for a directory that no tag wants at that revision |
| `FleetFences.LosesOnlyToHigher` | internal/agent/reconcile.go:495-500 | a publication that is not current has lost to a strictly higher revision |
| `FleetFences.AgentsAgree` | internal/agent/reconcile.go:428-500 | in every reachable state agents of one revision never fence each other out, whatever their tags and however old their replies |
| `FleetFences.SameSystemIsCoherent` | internal/config/model_identity.go:52-73 | for agents on the gateway's own kind of system validation is enough for that |
| `FleetFences.ClashFencesOut` | internal/agent/reconcile.go:495-500 | of two publications of one revision that want different fences the first fences the second out |
| `FleetFences.ClashExactly` | internal/config/model_identity.go:24-33 | two agents of one revision can clash on a host if and only if two wanted models with different artifacts share a directory under that host's identity |
| `FleetFences.WindowsCoherentExactly` | internal/config/model_identity.go:24-33 | with safe names and Windows agents that is so exactly when two such directories differ in case only |
| `FleetFences.StartNames` | internal/gateway/config_manager.go:99-135 | a starting gateway names its configuration under a revision that named nothing so far |
| `FleetFences.ChangeNames` | internal/gateway/config_manager.go:259-317 | an apply, a promotion or a rollback that commits is a naming step of the fleet under a revision that named nothing so far; one that does not commit names nothing and wastes at most one revision |
| `FleetFences.SameIdentities` | internal/config/model_identity.go:39-94 | whether identities are valid depends on aliases, directories and artifacts only, so what is committed is as valid as what was checked |
| `ConfigManagers.ConfigRevisionStore.Allocate` | internal/gateway/config_revision_store.go:62-105 | one more than the stored revision, stored before it is returned; a failed unlock spends the revision on nobody, and any other failure and the largest value change nothing |
| `ConfigManagers.ConfigManager.Start` | internal/gateway/config_manager.go:99-135 | a starting gateway names its configuration by a revision of its own |
| `ConfigManagers.ConfigManager.Apply` | internal/gateway/config_manager.go:259-317 | succeeds exactly when the file loads, can be written and, unless a restart is needed, a revision can be had; a failure leaves configuration and version alone; success pairs the new configuration with a fresh revision exactly when stores and pinned settings stay as they are, and changes only the file copy otherwise; a pinned or store setting never changes live |
| `ConfigManagers.ConfigManager.StripPolicies` | internal/gateway/service_name_promotion.go:245-266 | exactly the policies that mention the name are recorded as they were and as they become without it |
| `ConfigManagers.ConfigManager.FilterNames` | internal/gateway/service_name_promotion.go:248-256 | the list without the name, in order, and whether it occurred |
| `ConfigManagers.ConfigManager.Prepare` | internal/gateway/service_name_promotion.go:370-415 | succeeds exactly when the reloaded configuration is valid and a revision can be had; live configuration and version stay |
| `ConfigManagers.ConfigManager.PromoteServiceName` | internal/gateway/service_name_promotion.go:204-295 | succeeds exactly when all checks pass and every call outside does; every failing path leaves configuration, version and file alone; success commits the promoted configuration under a fresh revision and archives what it took away |
| `ConfigManagers.ConfigManager.RollbackServiceName` | internal/gateway/service_name_promotion.go:297-356 | succeeds exactly when all checks pass and every call it needs does; every failing path leaves everything alone; success commits the configuration with the archived parts put back |
| `ConfigManagers.PromotableExactly` | internal/gateway/service_name_promotion.go:209-237 | a promotion passes the checks if and only if file and runtime agree on the namespace, the name is a disabled model and no alias, and the target another model that is enabled |
| `ConfigManagers.PromotedMeans` | internal/gateway/service_name_promotion.go:239-266 | once promoted the name is an alias of an enabled model and of nothing else, no policy mentions it, and the policies allow everything else they did |
| `ConfigManagers.RollbackAcceptedExactly` | internal/gateway/service_name_promotion.go:309-324 | whatever was edited since the promotion, a rollback is accepted if and only if the name is the target's alias and no model, the touched policies are as the promotion left them, and the promotion left no touched tag with an empty allow list |
| `ConfigManagers.RollbackRestores` | internal/gateway/service_name_promotion.go:309-354 | an accepted rollback, over any edits, gives the one configuration in which service model, alias and touched policies are back and all else keeps its present value; it is the original if and only if nothing was edited |
| `ConfigManagers.PromoteThenRollback` | internal/gateway/service_name_promotion.go:239-337 | with no edit in between promoting and rolling back gives the configuration itself |
| `ConfigManagers.RollbackRefusedExactly` | internal/gateway/service_name_promotion.go:320-324 | straight after a promotion the only error is a policy change, if and only if the promotion left a touched tag with an empty allow list |
| `ConfigManagers.EmptiedTagExample` | internal/gateway/service_name_promotion.go:248-265 | a tag that allows one model, promoted away: the rollback is refused as a policy change |
| `ConfigManagers.ReloadKeepsNamespace` | internal/gateway/service_name_promotion.go:364-404 | writing and reloading keeps models, aliases and policies when each automatic max_loaded is 0 |
| `ConfigManagers.PromoteEditRollback` | internal/gateway/service_name_promotion.go:204-356 | a promotion, any edit of the file and a rollback, one after the other: the rollback succeeds only in the accepted states, and in those it does if what it writes is valid; then the promoted name is restored over the edit |
| `ConfigManagers.PromoteAndRollback` | internal/gateway/service_name_promotion.go:204-356 | the two transactions with no edit in between bring the configuration back, two revisions later |
| `TransportLeases.ValidateLoaded` | internal/gateway/transport_lease.go:290-320 | accepts exactly the lists of valid leases with distinct ports and ids and one current lease for each agent |
| `TransportLeases.LeaseStore.Save` | internal/gateway/transport_lease_store.go:15-20 | a save replaces the snapshot or fails and keeps the old one |
| `TransportLeases.LeaseManager.Open` | internal/gateway/transport_lease.go:56-82 | opens exactly when the unexpired leases are valid and, if pruning changed anything, saving works; memory then equals the store |
| `TransportLeases.LeaseManager.PruneExpired` | internal/gateway/transport_lease.go:328-336 | keeps exactly the leases that expire later than now, in order |
| `TransportLeases.LeaseManager.LookupCurrent` | internal/gateway/transport_lease.go:86-96 | finds an unexpired current lease of that agent, id and generation exactly when there is one |
| `TransportLeases.LeaseManager.Renew` | internal/gateway/transport_lease.go:98-127 | the renewed list and answer, saved only when at most half the TTL is left; memory stays equal to the store |
| `TransportLeases.LeaseManager.Release` | internal/gateway/transport_lease.go:129-152 | the list without the released and expired leases, or unchanged when saving fails |
| `TransportLeases.LeaseManager.GenerateUniqueId` | internal/gateway/transport_lease.go:257-275 | the first non-blank unused id of eight tries |
| `TransportLeases.LeaseManager.FindPort` | internal/gateway/transport_lease.go:216-230 | the lowest port of the range that is neither excluded nor taken |
| `TransportLeases.LeaseManager.Conflicts` | internal/gateway/transport_lease.go:170-202 | whether the presented lease id contradicts the agent's current lease |
| `TransportLeases.LeaseManager.Acquire` | internal/gateway/transport_lease.go:154-255 | validation, conflict, sticky and fresh acquisition in the source's order; memory stays equal to the store |
| `TransportLeaseRuns.StepKeepsLoadable` | internal/gateway/transport_lease.go:290-320 | every acquire, renew, release and restart, saved or not, keeps the lease set valid |
| `TransportLeaseRuns.ReachableReloads` | internal/gateway/transport_lease.go:56-82 | after any run, opening the store at any later time is accepted |
| `TransportLeaseRuns.ReachableFromEmpty` | internal/gateway/transport_lease.go:290-320 | from an empty store: distinct ports, distinct ids, one current lease for each agent, reloadable at any later time |
| `TransportLeaseRuns.ConflictExactly` | internal/gateway/transport_lease.go:170-202 | with a current lease a request conflicts exactly when it presents another id, or none and cannot reuse the lease; without one, exactly when it presents an id that is not an expired lease of its own |
| `TransportLeaseRuns.AcquireSticky` | internal/gateway/transport_lease.go:203-214 | a reusable lease is returned with a fresh expiry and nothing else in the set changes but expired leases going |
| `TransportLeaseRuns.AcquireFresh` | internal/gateway/transport_lease.go:216-255 | capacity is reported exactly when no port is available; a granted port is the lowest available; the agent's earlier leases only stop being current |
| `TransportLeaseRuns.FreshGrantedExactly` | internal/gateway/transport_lease.go:216-255 | without a reusable lease a request that does not conflict is granted if and only if a port is available, one of eight ids is usable and the save works |
| `TransportLeaseRuns.AskingAgainKeepsLease` | internal/gateway/transport_lease.go:203-214 | an agent that asks again for what it holds gets the same lease with a fresh expiry, whether or not it names it |
| `TransportLeaseRuns.FirstRequestGetsFirstPort` | internal/gateway/transport_lease.go:216-255 | the first agent of all gets the first port |
| `TransportLeaseRuns.ReleaseExactly` | internal/gateway/transport_lease.go:129-152 | a release finds exactly an unexpired current lease; then that one is gone, no other unexpired one is, and no lease left has its port |
| `TransportLeaseRuns.SupersededStays` | internal/gateway/transport_lease.go:238-242 | a superseded lease stays in the set, unchanged, over every run before its expiry |
| `TransportLeaseRuns.SupersededKeepsPort` | internal/gateway/transport_lease.go:216-230 | until then its port is granted to nobody |
| `TransportLeaseRuns.RenewHeld` | internal/gateway/transport_lease.go:98-127 | a renewal of a held lease fails only if its save does, and leaves more than half the TTL |
| `TransportLeaseRuns.KeepAlive` | internal/gateway/transport_lease.go:98-127 | any run with renewals at most half a TTL apart never loses the lease |
| `TransportLeaseRuns.RenewalAlwaysFindsIt` | internal/gateway/transport_lease.go:98-127 | the next renewal after such a run still finds the lease |
| `TransportLeaseRuns.SaveTimesTrack` | internal/gateway/transport_lease.go:105-126 | the saved renewals of a run determine the lease's expiry |
| `TransportLeaseRuns.SavesApart` | internal/gateway/transport_lease.go:110-112 | saves caused by renewals are at least half a TTL apart |
| `QueueLimiters.QueueLimiter.Enter` | internal/gateway/limits.go:55-85 | admitted below the limit, queued below the queue limit, else refused |
| `QueueLimiters.QueueLimiter.Release` | internal/gateway/limits.go:146-173 | the permit goes to the first waiter, or active goes down; an unused key is forgotten |
| `QueueLimiters.QueueLimiter.CancelWaiter` | internal/gateway/limits.go:175-196 | a waiter that is still queued is taken out and the others keep their order |
| `QueueLimiters.QueueLimiter.Active` | internal/gateway/limits.go:107-114 | the permits out for a key |
| `QueueLimiters.ActiveCountsPermits` | internal/gateway/limits.go:72-104 | over every run, with limits changing and cancellations racing hand-offs, active counts the granted and unreleased permits |
| `QueueLimiters.NoStrandedWaiter` | internal/gateway/limits.go:146-173 | when someone waits, someone holds a permit whose release will serve the queue |
| `QueueLimiters.CancelAfterHandOffHolds` | internal/gateway/limits.go:94-103 | a cancellation that comes after the hand-off ends up holding the permit |
| `QueueLimiters.FirstComeFirstServed` | internal/gateway/limits.go:55-105 | under fixed limits active and queue stay within them, a queue forms only when every permit is out, and those who do not give up are granted in order of arrival |
| `QueueLimiters.RaisedLimitOvertakes` | internal/gateway/limits.go:72-84 | when a limit rises between calls a newcomer is admitted ahead of a waiter |
| `QueueLimiters.OvertakesExactly` | internal/gateway/limits.go:72-84 | an entry breaks the order exactly when someone waits and the caller's limit exceeds the permits out |
| `QueueLimiters.EnterExactly` | internal/gateway/limits.go:55-85 | in every reachable state a request gets a permit exactly while fewer than the limit are out, waits exactly when the queue has room, and is refused only when neither is so |
| `QueueLimiters.ReleaseServes` | internal/gateway/limits.go:146-173 | a released permit goes to one of those that wait, if there are any, and else is free again |
| `QueueLimiters.TimeoutLeaves` | internal/gateway/limits.go:94-105 | one that gives up leaves the queue, and the others keep their places |
| `WorkerRegistries.WorkerRegistry.UpsertHeartbeat` | internal/gateway/workers.go:62-99 | the registry after a heartbeat and its reply: holders expired, the worker recorded, its locks dropped when it needs no restart, drain or restart decided |
| `WorkerRegistries.WorkerRegistry.RestartDecision` | internal/gateway/workers.go:101-115 | all scopes are claimed and the worker drained unless another holds an overlapping one; allowed when nothing is active |
| `WorkerRegistries.WorkerRegistry.RestartBlockedByOther` | internal/gateway/workers.go:117-135 | blocked exactly by another holder of one of the scopes, of the global scope, or of any scope when the global one is asked |
| `WorkerRegistries.WorkerRegistry.RestartScopes` | internal/gateway/workers.go:137-153 | the distinct trimmed names, or the global scope when there are none |
| `WorkerRegistries.WorkerRegistry.ReleaseExpiredRestartHolders` | internal/gateway/workers.go:155-162 | drops exactly the locks of workers that are unknown or offline too long |
| `WorkerRegistries.WorkerRegistry.ReleaseRestartHolderFor` | internal/gateway/workers.go:164-170 | drops exactly one worker's locks |
| `WorkerRegistries.WorkerRegistry.Drain` | internal/gateway/workers.go:172-183 | a known worker is drained by hand, nothing else changes |
| `WorkerRegistries.WorkerRegistry.Undrain` | internal/gateway/workers.go:185-198 | a manual drain is lifted but not that of a worker with a restart lock |
| `WorkerRegistries.WorkerRegistry.Snapshot` | internal/gateway/workers.go:220-234 | the workers in join order after pruning |
| `WorkerRegistries.WorkerRegistry.PruneOffline` | internal/gateway/workers.go:236-258 | the registry without the workers offline too long, their counts, drains and locks |
| `WorkerRegistries.WorkerRegistry.RemoveOffline` | internal/gateway/workers.go:236-250 | exactly the offline workers are forgotten |
| `WorkerRegistries.WorkerRegistry.Acquire` | internal/gateway/workers.go:271-288 | admits and counts exactly when the worker is known, fresh, out of backoff and not draining |
| `WorkerRegistries.WorkerRegistry.Release` | internal/gateway/workers.go:290-305 | one active request less; the last one removes the count |
| `WorkerRegistries.WorkerRegistry.RecordScrape` | internal/gateway/workers.go:308-332 | a success clears failures, a failure starts the backoff |
| `WorkerRegistryRuns.HeartbeatKeepsExclusionExactly` | internal/gateway/workers.go:101-135 | a heartbeat keeps the global restart scope exclusive unless it is granted a list naming a model "*" beside others while another worker holds a scope, and then it never does |
| `WorkerRegistryRuns.ReservedNameBreaksExclusion` | internal/gateway/workers.go:137-153 | such a list takes the global lock while another worker restarts |
| `WorkerRegistryRuns.ExclusionOverRuns` | internal/gateway/workers.go:62-135 | over every run without that name the holder of the global scope holds every held scope |
| `WorkerRegistryRuns.AllowedMeansRestarting` | internal/gateway/workers.go:94-98 | a reply that allows a restart means all scopes held, drained and nothing active |
| `WorkerRegistryRuns.NoAdmissionUntilNextHeartbeat` | internal/gateway/workers.go:271-288 | until the worker's next heartbeat no request is admitted to it, whatever drains, undrains, prunes and heartbeats come in between |
| `WorkerRegistryRuns.LocksHeld` | internal/gateway/workers.go:155-170 | over every such run within the offline retention the locks stay its own |
| `WorkerRegistryRuns.RestartsExclude` | internal/gateway/workers.go:101-135 | until it reports again or the retention is over no other worker whose list does not mix in the global name is allowed to restart over an overlapping scope |
| `WorkerRegistryRuns.CountsMove` | internal/gateway/workers.go:271-305 | every step but pruning moves the active count with the outstanding requests |
| `WorkerRegistryRuns.ActiveAtMostOutstanding` | internal/gateway/workers.go:236-258 | over every run, pruning included, the active count never exceeds the outstanding requests |
| `WorkerRegistryRuns.CountStaysExactExactly` | internal/gateway/workers.go:242-245 | a step keeps the count exact unless it prunes a busy worker, and then it never does |
| `WorkerRegistryRuns.GrantedExactly` | internal/gateway/workers.go:101-135 | a worker that asks is granted its scopes if and only if no other known worker inside the retention holds an overlapping one, and may restart if and only if moreover nothing is active on it |
| `WorkerRegistryRuns.ScopesExactly` | internal/gateway/workers.go:137-153 | the scopes asked for are the trimmed names that are not blank, and the global one when there are none |
| `WorkerRegistryRuns.HeldAfterHeartbeat` | internal/gateway/workers.go:62-99 | what a heartbeat leaves held is held by known workers inside the retention, and by none that needs no restart; other workers inside it keep what they held |
| `WorkerRegistryRuns.LocksWantedOverRuns` | internal/gateway/workers.go:62-99 | over every run a held scope belongs to a known worker whose last heartbeat asked for a restart |
| `WorkerRegistryRuns.NextInLine` | internal/gateway/workers.go:62-135 | when the one worker in the way reports that it is done, the next idle one that asks may restart |
| `WorkerRegistryRuns.DrainedUntilUndrained` | internal/gateway/workers.go:172-198 | over every run a worker drained by hand admits nothing, whatever it reports, until it is undrained or forgotten |
| `WorkerRegistryRuns.UndrainedAdmits` | internal/gateway/workers.go:185-198 | undrained, a worker that waits for no restart admits exactly when it is fresh and not backed off |
| `WorkerRegistryRuns.BackedOffExactly` | internal/gateway/workers.go:308-332 | over every run in which a worker is known it is backed off exactly from its third failed scrape in a row on, for the backoff after the last one |
| `TransportLoop.TransportManager.Run` | internal/agent/transport_manager.go:88-308 | given the answers of gateway, clients and clock for each round: the log is safe and every round does what its answers call for; a finished run holds none of the leases it took after shutdown unless a client did not stop |
| `TransportLoop.TransportManager.Acquire` | internal/agent/transport_manager.go:117-227 | a round without a client asks for a lease exactly when what is wanted is learnt, managed and prepared and the context has not ended; it presents the lease it holds or gives it back, and ends with a ready client, a replacement, legacy mode, nothing, or the end of the run, as the answers say |
| `TransportLoop.TransportManager.RequestLease` | internal/agent/transport_manager.go:166-226 | asking presents exactly the lease held and excludes its port; a lease is taken if and only if generation, id, slot, port, their relation and expiry are right, and on record as refused and never held otherwise; a lease taken is a client started |
| `TransportLoop.TransportManager.ValidateLease` | internal/agent/transport_manager.go:429-440 | a lease fits exactly when generation and id are those wanted, the port lies in the range at its slot, and it has not expired |
| `TransportLoop.TransportManager.AskForLease` | internal/agent/transport_manager.go:167-190 | a request that is answered is followed by the lease being taken or refused, and by one of the two only |
| `TransportLoop.TransportManager.KeepFitting` | internal/agent/transport_manager.go:158-165 | a replacement of another generation is given back before asking |
| `TransportLoop.TransportManager.Round` | internal/agent/transport_manager.go:98-307 | one round of the loop, in legacy mode, with a client or without one |
| `TransportLoop.TransportManager.AfterRunEnded` | internal/agent/transport_manager.go:239-253 | a client that ended by itself leaves its lease as the replacement |
| `TransportLoop.TransportManager.Drop` | internal/agent/transport_manager.go:290-304 | a client that is no longer wanted is stopped, and its lease given back |
| `TransportLoop.TransportManager.RunLease` | internal/agent/transport_manager.go:191-226 | the client that is ready becomes active; a failed registration keeps its lease as the replacement; an unavailable bootstrap gives it back; the delay doubles or starts over |
| `TransportLoop.TransportManager.Start` | internal/agent/transport_manager.go:442-498 | ready is shown only for the started client's lease; other results show nothing ready |
| `TransportLoop.TransportManager.StopClient` | internal/agent/transport_manager.go:508-541 | nothing is shown as ready before the client is stopped; true means its workers have returned |
| `TransportLoop.TransportManager.Attend` | internal/agent/transport_manager.go:229-306 | what a round with a client leaves behind for each thing it can wake up to |
| `TransportLoop.TransportManager.Poll` | internal/agent/transport_manager.go:278-305 | the client is kept, and nothing done, when the configuration cannot be learnt or is the same; else it is stopped and its lease given back |
| `TransportLoop.TransportManager.LegacyRound` | internal/agent/transport_manager.go:100-116 | while no managed transport is wanted nothing is held |
| `TransportLoop.TransportManager.WaitRetryWithReplacement` | internal/agent/transport_manager.go:590-598 | the replaced lease is given back when the context has ended |
| `TransportLoop.TransportManager.StopAndRelease` | internal/agent/transport_manager.go:508-570 | after a stop that converged no lease is open |
| `TransportLoop.TransportManager.TakeInvalidationFor` | internal/agent/transport_manager.go:334-342 | an invalidation counts only for the lease it names, and all are used up |
| `TransportLoop.AllowedWhenTaken` | internal/agent/transport_manager.go:88-308 | every action of a safe log was allowed at its time |
| `TransportLoop.OneClient` | internal/agent/transport_manager.go:191-226 | never more than one client is alive, and a ready snapshot shows its lease |
| `TransportLoop.AliveUntilConverged` | internal/agent/transport_manager.go:508-541 | a started client is alive until both its workers have returned |
| `TransportLoop.ReleasedAfterStop` | internal/agent/transport_manager.go:508-570 | a lease is released only after every client that ran on it has stopped |
| `TransportLoop.NothingAfterUnconverged` | internal/agent/transport_manager.go:543-546 | after a stop that did not converge no lease is requested and no client started |
| `TransportLoop.OnlyTakenIsReleased` | internal/agent/transport_manager.go:182-189 | only a lease that was taken is ever given back; one that was granted but fails the checks is left to expire |
| `TransportLoop.DelaysDouble` | internal/agent/transport_manager.go:614-633 | delays double with each failure in a row up to the longest one |
| `RestartMarkers.ManagedHost.WriteForRunningModels` | internal/agent/reconcile.go:1140-1177 | a missing file is written after marking; with a running model an affected change only marks; otherwise the file is written |
| `RestartMarkers.ManagedHost.WriteConfigIfChangedAndMarkPending` | internal/agent/reconcile.go:1089-1138 | the file changes only with the marker on disk |
| `RestartMarkers.ManagedHost.WriteConfigIfChangedWithoutMarkingPending` | internal/agent/reconcile.go:1311-1354 | the file is replaced, or left alone on equal content and on any failure |
| `RestartMarkers.ManagedHost.MarkPendingRestart` | internal/agent/reconcile.go:1024-1030 | a successful write leaves the marker; a failed one may leave it too, and never takes one away |
| `RestartMarkers.ManagedHost.BeginCycle` | internal/agent/reconcile.go:291-296 | a marker on disk makes the cycle ask for a restart |
| `RestartMarkers.ManagedHost.WriteRendered` | internal/agent/reconcile.go:323-346 | affected models, or a first file, make the cycle ask for a restart with the content pending; with no running model whose entry changes nothing is asked for |
| `RestartMarkers.ManagedHost.WritePending` | internal/agent/reconcile.go:367-377 | the pending content is written before the restart, and a failure ends the cycle |
| `RestartMarkers.ManagedHost.RestartService` | internal/agent/reconcile.go:378-382 | a restart stops every model; a failed one may stop some |
| `RestartMarkers.ManagedHost.VerifyAndClear` | internal/agent/reconcile.go:383-393 | the marker and the request go only when the restart is verified and the file could be removed |
| `RestartMarkers.ManagedHost.PrepareManagedTransport` | internal/agent/reconcile.go:86-130 | only the API key changes, or an empty configuration appears; the marker is left alone |
| `RestartMarkers.ManagedHost.ReconcileRunOnce` | internal/agent/reconcile.go:284-396 | one cycle, with models coming and going: the agent's steps are begin, look, render, report, write, restart, verify in this order as far as the answers let it go, with every early return; it ends restarted exactly when all of them went through, and else a marker is still there; a cycle that goes through with a change of a running model's entry puts the new content in the file and restarts the service |
| `RestartMarkers.ManagedHost.LookOnce` | internal/agent/reconcile.go:291-325 | the cycle up to the look at the running models |
| `RestartMarkers.ManagedHost.ReportOnce` | internal/agent/reconcile.go:327-367 | rendering where nothing blocks it, and the heartbeat: a restart follows exactly when it was asked for and allowed |
| `RestartMarkers.ManagedHost.RestartOnce` | internal/agent/reconcile.go:367-393 | the granted part: a failed write, restart or verification ends it and keeps marker and request |
| `RestartMarkerRuns.StepKeepsExactly` | internal/agent/reconcile.go:1140-1177 | a step keeps every outdated running model on record unless an unmarked write meets a model that started after the look, and then it never does |
| `RestartMarkerRuns.RenderExactly` | internal/agent/reconcile.go:1140-1177 | with a file in place and another content: if a model that was seen running has another entry in it, the agent marks, asks for a restart and keeps the content; with other models running nothing happens; with none the file is replaced |
| `RestartMarkerRuns.RenderOverUnparsable` | internal/agent/reconcile.go:1157-1169 | over a file that does not parse, any running model counts as affected |
| `RestartMarkerRuns.RenderFirstFile` | internal/agent/reconcile.go:1142-1156 | a first file is written with the marker on disk, and asks for a restart |
| `RestartMarkerRuns.PrepareExactly` | internal/agent/reconcile.go:86-130 | preparing the transport puts the key and nothing else into a file in place, and restarts what does not enforce it yet |
| `RestartMarkerRuns.RecordedOverRuns` | internal/agent/reconcile.go:284-396 | at every crash point of a run without such a start, a model that does not run from its entry on disk is on record |
| `RestartMarkerRuns.RacedExample` | internal/agent/reconcile.go:1140-1177 | a model that starts between the look and the write goes unrecorded |
| `RestartMarkerRuns.RunsCompose` | internal/agent/reconcile.go:284-396 | cycles one after the other make one run |
| `RestartMarkerRuns.PhaseTellsPast` | internal/agent/reconcile.go:348-393 | over every run: a cycle that has got to writing, restarting or verifying was granted its restart in the same cycle, with the marker on disk ever since |
| `RestartMarkerRuns.MarkerGoesAfterVerifiedRestart` | internal/agent/reconcile.go:367-393 | whenever, in any run with crashes, the marker goes, a heartbeat of the same cycle asked and was allowed, then the service was restarted, and now the restart is verified; the marker was there all along |
| `RestartMarkerRuns.MarkerGoneMeansRestarted` | internal/agent/reconcile.go:367-393 | a run that starts with the marker and ends without it has those three events in that order, with neither a crash nor another cycle in between |
| `RestartMarkerRuns.ModelsChangeOnlyWhenGranted` | internal/agent/reconcile.go:1157-1169 | at every point of every run with a file in place and a running model seen at the last look: if the models section changes, the same cycle was granted a restart and the section becomes what was waiting |
| `RestartMarkerRuns.RestartsAreGranted` | internal/agent/reconcile.go:348-378 | every restart a cycle of a run makes was asked for and allowed in the same cycle, the marker has been on disk since, and the waiting content is in place |
| `RestartMarkerRuns.MarkerStays` | internal/agent/reconcile.go:1032-1038 | over failed restarts, failed verifications and crashes the marker stays until a restart is verified |
| `RestartMarkerRuns.MarkerKeepsAsking` | internal/agent/reconcile.go:291-296 | until then every cycle that finds it asks for a restart, and goes on asking unless the agent crashes |
| `Placement.CountOccupied` | internal/gateway/placement.go:436-447 | healthy workers that run the model in any state |
| `Placement.ComputeEffectiveMax` | internal/gateway/placement.go:554-568 | the configured ceiling, or the healthy workers that may and could run the model |
| `Placement.RunningModelCounts` | internal/gateway/reconcile.go:318-331 | for every model its ready entries on healthy workers |
| `Placement.Survey` | internal/gateway/placement.go:69-90 | whether any worker has the model ready, and whether any could or does run it |
| `Placement.Collect` | internal/gateway/placement.go:105-141 | exactly the healthy, allowed, ready, not excluded workers outside a cooldown are candidates |
| `Placement.FirstIsLeastBusy` | internal/gateway/scheduler.go:78-110 | the scores amount to this: fewest requests first, then by name |
| `Placement.CandidateExactly` | internal/gateway/placement.go:105-141 | a candidate is a healthy worker, allowed by a tag, not tried yet, outside a cooldown, with artifact and model ready in capitals or small letters |
| `Placement.CeilingExactly` | internal/gateway/placement.go:554-568 | the ceiling is the configured one, or the number of healthy workers that may run the model and have a usable artifact |
| `Placement.OccupiedCounts` | internal/gateway/placement.go:436-447 | a model occupies as many workers as are healthy and list it |
| `Placement.LoadedCounts` | internal/gateway/reconcile.go:318-331 | it counts as loaded once for each ready entry on a healthy worker |
| `Placement.PickReadyWorker` | internal/gateway/placement.go:58-177 | picks the least busy candidate, exactly when there is one and the model may be loaded; the errors say whether nothing is ready or nothing healthy |
| `PlacementPlans.PickLeast` | internal/gateway/placement.go:475-510 | the entry no other eligible entry is less than, over all workers and entries |
| `PlacementPlans.PickEvictionVictimForModel` | internal/gateway/placement.go:475-510 | the least victim by floor of zero, priority, last access and worker |
| `PlacementPlans.FloorVictimIsLast` | internal/gateway/placement.go:519-530 | against every eligible entry the victim has no floor sooner, then the lower priority, then the earlier access, then the first name |
| `PlacementPlans.FloorLessIsStrict` | internal/gateway/placement.go:519-530 | the eviction rank is a strict order |
| `PlacementPlans.KeepLessIsStrict` | internal/gateway/placement.go:352 | so is keep score, model and worker |
| `PlacementPlans.FloorVictimIgnoresHealth` | internal/gateway/placement.go:475-489 | which victim a floor takes does not depend on the health of its worker |
| `PlacementPlans.FloorVictimHealthyExactly` | internal/gateway/placement.go:475-489 | the victim is on a healthy worker if and only if each entry on an unhealthy one is outranked by one on a healthy one |
| `PlacementPlans.PickEmptyWarmWorkerExcluding` | internal/gateway/placement.go:250-263 | the first by name of the healthy, idle, allowed, artifact-ready, empty workers, exactly when there is one |
| `PlacementPlans.PlanWarmEviction` | internal/gateway/placement.go:311-359 | exactly when some victim is worth it, the least by keep score, model and worker; the worker is only freed when its artifact is stale |
| `PlacementPlans.PlanWarmAction` | internal/gateway/placement.go:265-309 | the most urgent model in demand that can be served gets the first empty worker by name, else the least entry worth evicting; nothing is planned exactly when none can be served |
| `PlacementPlans.FillFloor` | internal/gateway/placement.go:201-221 | empty workers are warmed until floor or ceiling is reached or no empty worker is left, each worker once; models filled before stay filled |
| `PlacementPlans.ModelNamesByPriority` | internal/gateway/placement.go:459-473 | every model once, by falling priority, then by name |
| `PlacementPlans.PlanInOrder` | internal/gateway/placement.go:187-244 | short models are filled, or the first one without room gets the least victim, or all are starved; demand is looked at only when no model is short |
| `PlacementPlans.PlanControlActions` | internal/gateway/placement.go:179-244 | every plan is safe: distinct idle eligible workers, no ceiling passed, at most one victim, ready, unprotected, idle and not needed for a floor; and it does what can be done: floors before demand, warming before unloading |
| `PlacementPlans.KeepScoreDirected` | internal/gateway/placement.go:406-428 | priority, floor, protection, work and recent use each keep a replica, and nothing else does |
| `PlacementPlans.DemandVictimIsLeast` | internal/gateway/placement.go:311-359 | no eligible replica is worth less to keep than the victim for demand on some account and no more on all others |
| `PlacementPlans.EmptyPlanFloors` | internal/gateway/placement.go:187-244 | when nothing is planned, no worker is free for a model below its floor and none that could make room for it has a replica to spare |
| `PlacementPlans.EmptyPlanDemand` | internal/gateway/placement.go:265-359 | then, with no model below its floor, no worker is free for a model in demand, and none that could make room for it has a spare replica worth less, or any at all on a cold start |
| `PlacementOutcomes.WarmsOccupy` | internal/gateway/placement.go:201-221 | carried out together the planned warm-ups all count |
| `PlacementOutcomes.PlanKeepsCeilings` | internal/gateway/placement.go:197-201 | a carried-out plan takes no model above its ceiling |
| `PlacementOutcomes.UnloadCosts` | internal/gateway/reconcile.go:318-331 | unloading costs a model exactly its ready entries on that worker |
| `PlacementOutcomes.FloorHoldsExactly` | internal/gateway/placement.go:546-552 | a model keeps its floor exactly when that loss fits above it |
| `PlacementOutcomes.UnloadKeepsFloor` | internal/gateway/placement.go:546-552 | which it does whenever the worker lists the model once |
| `PlacementOutcomes.ListedTwiceExample` | internal/gateway/reconcile.go:324-328 | a worker that lists a model twice counts as two replicas, and unloading it goes below the floor |
| `ProxyDispatch.Request.HandleModelProxy` | internal/gateway/proxy.go:57-222 | for any answers of the scheduler, the workers and the limiters: on every exit nothing is held; at most proxyAttempts dispatches, none twice to a worker, each under all six permits; it goes on until an answer is final, a wait breaks, the client goes, the attempts are used up or the scheduler has nobody left; the end is exactly the one that the answers and the waits on record call for |
| `ProxyDispatch.Request.Loop` | internal/gateway/proxy.go:79-222 | terminates on any finite fleet; a retryable answer is followed by another attempt unless the attempts are used up or the client has gone; without a final one a wait that broke is reported, else, unless the client has gone, a failed dispatch, else a full queue, else that there is no worker |
| `ProxyDispatch.Request.TryWorker` | internal/gateway/proxy.go:103-150 | whatever fails, no permit of the worker is kept |
| `ProxyDispatch.Request.TakeTurn` | internal/gateway/proxy.go:79-178 | one round: what is picked is tried, refused by the registry or short of a permit, as the log says |
| `ProxyDispatch.Request.ReleaseAttempt` | internal/gateway/proxy.go:848-859 | all five permits of an attempt are given back once |
| `ProxyDispatch.NeverTwice` | internal/gateway/proxy.go:98-101 | a safe log dispatches to no worker twice |
| `ProxyDispatch.HeldIsTheRest` | internal/gateway/proxy.go:848-859 | what is held is what was taken and not given back |
| `ProxyDispatch.NothingLeft` | internal/gateway/proxy.go:848-859 | each counter gets back exactly what the request took |
| `ProxyDispatch.OnlyPicked` | internal/gateway/proxy.go:98-101 | only a worker the scheduler picked is dispatched to |
| `ProxyDispatch.PickedAreSettled` | internal/gateway/proxy.go:98-150 | every worker picked was dispatched to, refused, or without a permit, and none is picked again |
| `Accounting.Accounting.Acquire` | internal/gateway/accounting.go:33-56 | one live request more, counted by model, tag and worker, under a key of its own |
| `Accounting.Accounting.Release` | internal/gateway/accounting.go:103-127 | one live request less; a second release changes nothing |
| `Accounting.Accounting.CountIds` | internal/gateway/accounting.go:80-83 | how many live requests carry each id |
| `Accounting.Accounting.RequestSnapshot` | internal/gateway/accounting.go:76-101 | the live requests and the shown keys correspond one to one, each key showing its request; unless some id looks made up, the key is the id where only that request has it, and a made-up one otherwise |
| `Accounting.FreeKey` | internal/gateway/accounting.go:91-97 | the search for a free key ends, with the key itself when it is free |
| `Accounting.IncrementKeepsExact` | internal/gateway/accounting.go:46-48 | acquiring keeps every count equal to the live requests |
| `Accounting.DecrementKeepsExact` | internal/gateway/accounting.go:115-127 | so does releasing |
| `Accounting.ExactIsUnique` | internal/gateway/accounting.go:33-127 | the live requests determine the counts, whatever happened before |
| `Accounting.AcquireAndRelease` | internal/gateway/accounting.go:33-127 | acquiring and releasing leaves every count as it was |
| `BillingSweep.GroupByWorker` | internal/gateway/billing.go:519-531 | every worker's clipped non-empty intervals, in order |
| `BillingSweep.ClippingKeepsActive` | internal/gateway/billing.go:520-528 | inside the window clipping changes nothing about what is ready |
| `BillingSweep.UniqueTimes` | internal/gateway/billing.go:1052-1063 | the distinct times, ascending |
| `BillingSweep.CollectPoints` | internal/gateway/billing.go:535-540 | exactly the starts and ends of a worker's intervals, ascending |
| `BillingSweep.SegmentIsConstant` | internal/gateway/billing.go:546-551 | between neighbouring points the ready models do not change |
| `BillingSweep.AddSegment` | internal/gateway/billing.go:556-562 | each model of a segment gets its seconds, its share and the share at the rate |
| `BillingSweep.SweepWorker` | internal/gateway/billing.go:534-563 | a worker adds to each model what the ticks of the window give it |
| `BillingSweep.CalculateModelReadyCosts` | internal/gateway/billing.go:518-566 | for any intervals ready and billable time are the pointwise ones, summed over workers, and cost is billable time at the rate |
| `BillingSweep.WorkerConserves` | internal/gateway/billing.go:555-562 | over all models a worker's billable time is the time it was ready with anything |
| `BillingSweep.BillableConserved` | internal/gateway/billing.go:518-566 | over all models and workers billable time is the measure of the union of the intervals on each worker |
| `BillingSweep.CostConserved` | internal/gateway/billing.go:532-562 | so the total charged is the busy worker time at the rate |
| `BillingSweep.RepeatsDoNotCount` | internal/gateway/billing.go:548-553 | repeating or reordering intervals changes nothing |
| `BillingAllocation.AllocateBillingMicros` | internal/gateway/billing.go:905-928 | in place: floors, sorted by remainder, the missing micros dealt from the top |
| `BillingAllocation.FloorCells` | internal/gateway/billing.go:906-910 | every cell has its floor and the sum is returned |
| `BillingAllocation.DealMicros` | internal/gateway/billing.go:925-927 | the missing micros go round the cells in order |
| `BillingAllocation.AllocationExact` | internal/gateway/billing.go:905-928 | the micros add up to the target whenever the floors do not exceed it |
| `BillingAllocation.AllocationKeepsCells` | internal/gateway/billing.go:911-924 | no cell is lost or invented |
| `BillingAllocation.RoundedTargetFits` | internal/gateway/billing.go:852 | with the rounded total as target between none and all cells get one micro more |
| `BillingAllocation.AllocationFair` | internal/gateway/billing.go:905-928 | then every cell has its floor or one more, a larger fraction never misses out to a smaller one, and the total is met exactly |
| `BillingAliases.TallyAliases` | internal/gateway/billing.go:781-812 | every group's requests, durations, tokens and used cost, and every model's requests by group |
| `BillingAliases.DivideModel` | internal/gateway/billing.go:817-850 | a model's ready time, billable time and cost go to its groups by number of requests, all of the cost once |
| `BillingAliases.DivisionIsWhole` | internal/gateway/billing.go:819-828 | the counts of a model add up to its requests, and a model without any is unattributed |
| `BillingAliases.GroupExactly` | internal/gateway/billing.go:781-789 | the requested alias, trimmed, names the group, and a blank one is unattributed |
| `BillingAliases.RequestAddsToItsRow` | internal/gateway/billing.go:790-806 | one request more adds its tokens, duration and cost to the row of its alias, and to no other |
| `BillingAliases.ShareExactly` | internal/gateway/billing.go:815-842 | an alias bears the part of a model that its requests are of the model's requests |
| `BillingAliases.DivideModels` | internal/gateway/billing.go:813-851 | all models divided: cells add up to the whole cost and name only groups that have rows |
| `BillingAliases.AddMicros` | internal/gateway/billing.go:853-868 | a row's cost is the sum of its cells |
| `BillingAliases.GroupModelsByAlias` | internal/gateway/billing.go:753-869 | every row says what its requests brought and its share of the models; the rows' micros add up to the rounded cost, and each row's lie between the floors of its shares of what the models cost and one more for each model it has a share of |
| `BillingAliases.AllocatedWithin` | internal/gateway/billing.go:905-928 | allocating gives each group the floors of its cells and at most one micro more for each of them |
| `BillingAliases.DividedHaveShares` | internal/gateway/billing.go:815-842 | a model is divided over exactly the groups that have a positive share of it |
| `BillingAliases.SharesAddUp` | internal/gateway/billing.go:838-848 | the shares of a model over all groups make one |
| `BillingAliases.AliasesConserve` | internal/gateway/billing.go:753-869 | alias rows keep the total requests, durations, tokens, used cost, ready time and billable time |
| `BillingApps.TallyRequests` | internal/gateway/billing.go:603-646 | use by application, by model and by both, for any requests |
| `BillingApps.ShareIdle` | internal/gateway/billing.go:1022-1048 | one model's idle cost is added to its users by duration, or by number when there is none |
| `BillingApps.ChargeApps` | internal/gateway/billing.go:603-647 | every application's use and idle charges are those the rule gives it |
| `BillingApps.PartsAddUp` | internal/gateway/billing.go:1027-1048 | the parts of one model's idle cost add up to it, whichever basis is used |
| `BillingApps.ChargesConserved` | internal/gateway/billing.go:603-647 | before rounding all applications together are charged, for each model with requests, its cost or its use, whichever is more |
| `BillingApps.BasisExactly` | internal/gateway/billing.go:1027-1042 | idle cost is shared by time if and only if some request of the model took time, and else by number |
| `BillingApps.IdleInProportion` | internal/gateway/billing.go:1037-1048 | of two applications each pays in proportion to its basis |
| `BillingApps.IdleByNumber` | internal/gateway/billing.go:1027-1048 | without time each pays the part its requests are of the model's |
| `BillingApps.RequestCharged` | internal/gateway/billing.go:960-966 | a request is charged to the application it names, and to none in particular if it names none |
| `Tallies.PerRequestWins` | internal/gateway/billing.go:930-939 | a price for each request is the cost, whatever the tokens |
| `Tallies.TokensAdd` | internal/gateway/billing.go:930-939 | else two requests cost what their tokens cost together |
| `Tallies.TokenPrices` | internal/gateway/billing.go:930-939 | one token more costs its price; a cached one is charged at its own price instead |
| `Tallies.Partition` | internal/gateway/billing.go:599-646 | adding up by a key and then over the keys loses nothing |
| `ShellQuoting.ShellJoin` | internal/agent/render.go:253-263 | the quoted arguments with spaces between them |
| `ShellQuoting.SplitRuntimeArg` | internal/agent/render.go:147-194 | the tokenizer's words, for any text |
| `ShellQuoting.SplitOfJoinDropsEmpty` | internal/agent/render.go:147-194 | without backslashes quoting and tokenizing gives the non-empty arguments, in order |
| `ShellQuoting.SplitHalvesBackslashes` | internal/agent/render.go:160-167 | tokenizing a quoted line loses at least half of the backslashes |
| `ShellQuoting.SplitSeparates` | internal/agent/render.go:147-194 | plain words with any of the separators between them come out as those words |
| `ShellQuoting.QuotesGroup` | internal/agent/render.go:147-194 | between two quotes of one kind everything but that quote and the backslash is one word |
| `ShellQuoting.BackslashEscapes` | internal/agent/render.go:160-167 | after a backslash every character is text |
| `ShellQuoting.RoundTripExactly` | internal/agent/render.go:147-194 | the round trip gives the arguments back if and only if none is empty or holds a backslash |
| `ShellQuoting.PosixReadsBack` | internal/agent/render.go:253-263 | a POSIX shell (POSIX.1-2017, Shell Command Language, sections 2.2.2 and 2.2.3) reads a quoted line back as exactly the arguments |

## Left out

- HTTP handlers and clients, JSON and YAML text, SQL, Prometheus metrics, the admin interface, logs and event buffers: their results are arbitrary inputs here.
- FRP itself, systemd restarts, downloads, archive extraction and GPU queries: only success or failure.
- Digests (artifact fingerprints, CRCs) are injective identifiers; cryptography is not modelled.
- File locks and atomic renames are taken as mutual exclusion for each name and as one step; polling for them is not modelled.
- Floating point: amounts are exact reals, and the final display rounding of money and seconds is dropped.
- `ConfigRevisionStore.Allocate`: the memory store starts at 0 in every process, so claims across restarts are about the file store.
- `ArtifactInstaller.InstallAllowed`: at revision 0 fences have no order, so there a status says what held when it was given, and of the end only that a fence of some revision is stored.
- Order of results that nothing depends on: sorted directory lists, restart scopes, alias rows, the visiting order of Go maps.
- `Reconcile`, the single-shot pass of an agent that installs synchronously.
- The per-version breakdown inside an alias row, and request cost rows.
- `DemandScore`, pressure windows and the cooldown table: parameters of the planner.
- `TransportManager.Run`: a lease that the gateway granted and the agent refused is on record but not held; a run is cut after any number of rounds, so nothing is said about it ever ending; when its context ends is left open, and the clock only enters through the outcomes of waits and through lease expiry.
- `ManagedHost.ReconcileRunOnce`: a heartbeat without an agent transport, or without knowing what runs, asks for nothing and changes nothing, so it is not a step.
- `Request.TryWorker`: a panic inside the upstream attempt, after which the nested permits would not be given back.
- Names that are not valid UTF-8, and case folding of file names beyond ASCII other than through a parameter.
- `AcquireWithStats` is split where it starts to wait; waiting times and statistics are not modelled.
- Fields of a model or policy that no modelled decision reads are folded into one; so a nil and an empty list among them (`RuntimeArgs`, `TagCapacity`) are not told apart.
