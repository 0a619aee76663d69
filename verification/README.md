# Durable fencing and transactions of the OwnDock agent

A Dafny 4.11 model of the machinery by which an OwnDock agent survives crashes, lost replies and
repeated commands, of the server coordinators that drive it, and of three algorithms beside it.
`dafny verify dfyconfig.toml` checks everything.

## What is modelled

**Managed ingress.** A host's desired gateway config is prepared, then committed or aborted. The agent's
`FileIngressFenceStore` keeps the committed config, the pending one and a watermark for every route ever
published, which stays behind as a tombstone; `IngressExecutor` steps store and gateway; `CutoverCoordinator`,
`ReconciliationCoordinator` and `RetirementCoordinator` drive it from the server.

- `IngressProtocol`, `Encoding`, `Identifiers`: commands, validity, digests and their bytes.
- `IngressFence`: the store's decisions on plain values; `IngressFenceStore` is the store itself, a class
  whose methods are proved against them; `Listing` and `StateFiles` are how a store is written and read back.
- `IngressRuns`: whole runs of the agent, step by step, with gateway calls that fail before or after taking
  effect, failing writes and crashes anywhere; `IngressExecutor` proves the executor's methods take exactly those
  steps, and that a restart is the crash step; `IngressHistory` and `IngressSafety` hold the invariant and what it
  promises; `IngressAnswers` says what each request is answered; `IngressReload` when an agent can read its own file.
- `HostProtocol`: any number of servers running coordinator calls at once, one host document, a channel that
  delays, repeats and loses, and the agent, whose refusals are told apart from an unavailable gateway;
  `Coordinators` proves the coordinators' methods make the moves of that automaton; `HostSafety` and `HostPromises`
  hold the invariant and the promises; `ReconciliationAborts` the one promise that needs a condition.

**Deployment cutover.** Stage, activate, retire and cancel act on three container names, behind the
never-evicting `FileCutoverStore`.

- `CutoverLog`: the store as one watermark a slot, and the unbounded log it stands for; `CutoverStore` is the class.
- `DockerEngine`: containers by unique name and ID, calls that fail either way, the agent stopping at any call.
- `DeploymentSlots`: what each operation may do to the three names, and the recovery theorems; `DockerDeployment`
  proves the operations, call by call, to do that; `DeploymentExecutor` puts them behind the cutover store.

**Durable idempotency.** `AgentCommands`, `CommandFingerprint` and `CommandDocuments` are the command, the bytes that
identify it and the document it travels in; `CommandResults` and `ResultCache` the results and the first-in-first-out
cache; `CommandExecution` the interleavings of concurrent calls, and `CommandRunner` the executor's state under them.

**Algorithms.** `InventoryChunks` (bounded greedy chunking), `CaddyConfig` (the gateway's route list),
`RateWindow` (the compare-and-swap rate window). `Text` and `Common` are shared helpers.

SHA-256 is replaced by two stand-ins: `Sha256` never collides, and `Sha256Prefix`, for truncated hashes,
does, so that no proof leans on a truncated hash.

## What the proofs found

- A write that fails after its rename (`internal/agent/runtime/state_file.go:104-115`) can part memory and file. The
  history of committed configs, the committed revision, an answered retirement, a loadable file and every promise of the
  coordinators survive that. Three promises do not, and each has its exact condition: that the gateway serves the
  committed or the pending config (`IngressSafety.PromiseSurvivesLatePreparesOnly`, with the breaking runs
  `LateAbortStrandsConfig` and `LateCommitClearsGateway`), that a crash loses nothing
  (`IngressSafety.FileCarriesForLatePreparesOnly`), and that a route stays retired once its removal is committed but
  unanswered (`IngressSafety.RetirementSurvivesUnlessCommitsFailLate`).
- Commands accept route and deployment IDs that start with `-` or `_`, the ingress loader does not, so an agent can
  write a file it then refuses: `IngressReload.DashedRouteStrandsAgent` is such a run,
  `IngressFenceStore.WrittenStateLoads` the exact condition on the state, and `IngressReload.RunReloads` shows that
  an agent never asked to prepare such IDs can always start again.
- "Reconciliation never aborts a config it has sent Commit for" holds of all runs exactly when no two reconciliation
  calls are under way at once, whatever other coordinator calls overlap
  (`ReconciliationAborts.PromiseHoldsForOneReconciler`). With two, the agent can refuse the second worker's prepare,
  its backend having become unhealthy, after the first worker has sent the commit. The agent stays safe either way.
- A cancel restores the slot from every interruption exactly when the stable container does not belong to the same
  deployment and cutover sequence with a fencing token up to the command's (`DeploymentSlots.RecoverableExactly`):
  over an equal token it removes the stable container, over a smaller one, cancelling a completed activation is
  refused for ever.
- `chunkEnvelopeBytes` leaves out two bytes that the chunk has, so `Split` refuses some inventories that could be split:
  `InventoryChunks.SplittableButRefused` shows one, `InventoryChunks.SplittableIsSplitUnlessOvershot` says exactly when.
- A stage command held with ports or environment keys that are empty and not nil is refused where it is held, and valid
  with a fingerprint once it has travelled: `CommandDocuments.Transport`.
- The database keeps whole milliseconds, so two rate windows can start less than a window apart when the window has a
  fraction of one, and windows below one millisecond do not keep their limit: `RateWindow.WindowsAreApartExactly` and
  `RateWindow.LimitHoldsExactly`. The limiter's windows, of a second to an hour, keep theirs.
- Event times more than 64 bits of nanoseconds apart share a fingerprint
  (`CommandFingerprint.DistantEventTimesCollide`); for every other kind the fingerprint determines the command.

## Model

| member | source | states |
|---|---|---|
| IngressProtocol.DigestDeterminesConfig | internal/shared/agentprotocol/ingress.go:128-150 | with a collision-free hash, valid commands with equal digests have equal revisions and identical routes |
| IngressProtocol.DigestIgnoresOrder | internal/shared/agentprotocol/ingress.go:128-150 | the digest, or the refusal, is the same for every ordering of the routes |
| IngressProtocol.SpecDigestDeterminesSpec | internal/shared/agentprotocol/ingress.go:152-164 | equal spec digests mean the same route, target, host name, port and TLS mode |
| IngressProtocol.ValidRoutesAreCanonical | internal/shared/agentprotocol/ingress.go:53-87 | a valid command already lists its routes in the digest's canonical order |
| IngressProtocol.ConfigBytesInjective | internal/shared/agentprotocol/ingress.go:128-180 | the bytes hashed for a config are uniquely decodable |
| IngressProtocol.ComputeIngressConfigDigest | internal/shared/agentprotocol/ingress.go:128-150 | sorting, refusing bad or repeated routes and hashing in a loop gives the specified digest or refusal |
| IngressProtocol.ValidateRouteList | internal/shared/agentprotocol/ingress.go:58-71 | the loop accepts exactly valid routes in ascending ID order with no host name twice, and collects their IDs |
| IngressProtocol.ValidateProbeList | internal/shared/agentprotocol/ingress.go:72-84 | the loop accepts exactly ascending probe IDs that name published routes |
| IngressProtocol.ValidateIngressCommand | internal/shared/agentprotocol/ingress.go:53-94 | accepts exactly the valid commands, declaratively described |
| IngressProtocol.ValidCommandsExist | internal/shared/agentprotocol/ingress.go:53-104 | the validity rules can be met, at every revision, without a route and with one of any valid ID, to be probed or not |
| IngressProtocol.PeelRoutes | internal/shared/agentprotocol/ingress.go:166-180 | the byte form of a route list gives the list back |
| Encoding.PeelString | internal/shared/agentprotocol/command.go:648-655 | a length-prefixed string is the only one its bytes start with, whatever follows |
| Encoding.PeelStringList | internal/shared/agentprotocol/command.go:675-705 | a counted list of strings is uniquely decodable |
| Encoding.PeelInt64 | internal/shared/agentprotocol/command.go:671-673 | a signed number written in two's complement is uniquely decodable |
| IngressFence.SameConfigIsSame | internal/agent/runtime/ingress_store.go:253-256 | for valid commands the store's comparison is equality, so commit may promote the incoming command |
| IngressFence.RoutesRefusalMeaning | internal/agent/runtime/ingress_store.go:149-181 | the first-refusal scan refuses exactly when some route is refused by its fence |
| IngressFence.PromotedIsWellFormed | internal/agent/runtime/ingress_store.go:183-215 | a commit leaves fences that match the published routes, tombstones for all others, within the maximum |
| IngressFenceStore.WrittenStateLoads | internal/agent/runtime/ingress_store.go:276-369 | every well-formed state that was written loads back to itself, exactly when its IDs are ones the loader accepts |
| IngressFenceStore.LoadsExactly | internal/agent/runtime/ingress_store.go:276-343 | the loader accepts exactly documents that list no route twice and denote a well-formed state with IDs it accepts |
| IngressFenceStore.FileIngressFenceStore.CheckCandidateLocked | internal/agent/runtime/ingress_store.go:149-181 | the loop returns the candidate's first refusal: stale, conflicting or over capacity |
| IngressFenceStore.FileIngressFenceStore.Begin | internal/agent/runtime/ingress_store.go:123-147 | replies and leaves memory and file as specified; a failed write leaves memory as before |
| IngressFenceStore.FileIngressFenceStore.CanCommit | internal/agent/runtime/ingress_store.go:48-61 | already committed, pending, or a conflict |
| IngressFenceStore.FileIngressFenceStore.CanAbort | internal/agent/runtime/ingress_store.go:63-82 | nothing to do, to be dropped, stale or conflicting; never a committed config |
| IngressFenceStore.FileIngressFenceStore.Commit | internal/agent/runtime/ingress_store.go:183-215 | promotes the command with its fences, or changes nothing in memory |
| IngressFenceStore.FileIngressFenceStore.Abort | internal/agent/runtime/ingress_store.go:217-242 | drops exactly this pending config, or changes nothing in memory |
| IngressFenceStore.FileIngressFenceStore.DeactivateEntries | internal/agent/runtime/ingress_store.go:183-215 | every fence becomes a tombstone, nothing else about it changes |
| IngressFenceStore.FileIngressFenceStore.PublishEntries | internal/agent/runtime/ingress_store.go:183-215 | the published routes get their own fences over the old ones |
| IngressFenceStore.FileIngressFenceStore.PersistLocked | internal/agent/runtime/ingress_store.go:345-369 | the file denotes memory, or on failure whatever the failed replacement left |
| IngressFenceStore.FileIngressFenceStore.ValidateLoadedState | internal/agent/runtime/ingress_store.go:311-343 | accepts exactly states whose entries match the committed routes both ways and whose pending config is admissible |
| IngressFenceStore.FileIngressFenceStore.Load | internal/agent/runtime/ingress_store.go:276-309 | succeeds exactly on loadable documents, and gives back the state they denote |
| IngressFenceStore.FileIngressFenceStore.Restart | internal/agent/runtime/ingress_store.go:276-309 | the store is again what its file denotes, exactly when the IDs in the file load |
| IngressReload.PromotedLoads | internal/agent/runtime/ingress_store.go:183-215 | a commit leaves a loadable file exactly when the IDs of the published routes are ones the loader accepts |
| IngressReload.RunReloads | internal/agent/runtime/ingress_store.go:276-309 | after every run whose prepares carry such IDs, whatever fails in it, the agent can start again from its file |
| IngressReload.DashedRouteStrandsAgent | internal/agent/runtime/ingress_store.go:371-375 | a valid command with route ID "-a", prepared and committed without a failure, leaves a file the agent refuses |
| Listing.ListingDenotesItsMap | internal/agent/runtime/cutover_store.go:225-295 | reading a sorted listing of a map gives the map back, one entry a key |
| Listing.RuleOfListing | internal/agent/runtime/cutover_store.go:240-258 | a loader's rule holds of all entries of a listing exactly when it holds of the map's pairs |
| Listing.ReadEntries | internal/agent/runtime/cutover_store.go:240-258 | the loading loop accepts exactly lists that keep the rule and repeat no name, and builds their map |
| Listing.ListEntries | internal/agent/runtime/cutover_store.go:260-282 | lists a map in strictly ascending order of name, whatever order the map yields |
| StateFiles.StateFile.Replace | internal/agent/runtime/state_file.go:76-117 | the new document is in place unless the replacement failed before the rename |
| IngressExecutor.IngressExecutor.Prepare | internal/agent/runtime/ingress.go:38-65 | takes exactly the steps of a prepare in the step system, whatever fails; succeeds exactly when the gateway runs the command under its own digest and probes healthy, and otherwise reports what the gateway answered |
| IngressExecutor.IngressExecutor.Commit | internal/agent/runtime/ingress.go:67-91 | takes exactly the steps of a commit; commits only what the gateway runs under its own digest, and reports what the gateway answered |
| IngressExecutor.IngressExecutor.Abort | internal/agent/runtime/ingress.go:93-113 | takes exactly the steps of an abort; drops nothing before the committed config is back, and reports why it is not |
| IngressExecutor.IngressExecutor.RestoreCommitted | internal/agent/runtime/ingress.go:115-128 | the gateway runs the committed config, or is cleared when there is none, if the call took effect |
| IngressExecutor.IngressExecutor.Restart | internal/agent/runtime/ingress_store.go:276-309 | a restart is the crash step of the step system, exactly when the IDs in the file load |
| IngressRuns.StepKeepsInv | internal/agent/runtime/ingress.go:38-128 | every step of the agent, whatever gateway call or write fails in it, keeps the invariant of gateway, memory, file and history |
| IngressRuns.RestartIsDurable | internal/agent/runtime/ingress_store.go:276-309 | what a restart reads is valid and continues the history of committed configs, by at most the pending one whose commit failed late |
| IngressRuns.RunKeepsInv | internal/agent/runtime/ingress.go:38-128 | the invariant holds after every run |
| IngressRuns.CleanRunKeepsAgreement | internal/agent/runtime/ingress.go:38-128 | while no write of an abort or commit fails late, the gateway serves what memory holds, and the file holds memory's state and at most one pending config more |
| IngressHistory.CandidateContinues | internal/agent/runtime/ingress_store.go:149-181 | a candidate that passes the check follows every config ever committed |
| IngressHistory.CandidateCannotRevive | internal/agent/runtime/ingress_store.go:149-181 | a candidate that brings back a left-out route must raise its revision |
| IngressHistory.AdmittedExactly | internal/agent/runtime/ingress_store.go:149-181 | a candidate is admitted exactly when its revision is above every committed one, its routes fit all ever committed, and the IDs ever published and its own are within the maximum |
| IngressHistory.RefusedExactly | internal/agent/runtime/ingress_store.go:149-181 | its first route that does not fit makes it stale when some earlier publication is above it, and a conflict otherwise |
| IngressHistory.OldRevisionIsRefused | internal/agent/runtime/ingress_store.go:149-156 | before that, a revision below the committed one is stale and an equal one a conflict |
| IngressHistory.FullExactly | internal/agent/runtime/ingress_store.go:174-180 | the store is full exactly when everything else fits |
| IngressHistory.RouteJudged | internal/agent/runtime/ingress_store.go:160-173 | the answer that one fence gives to a route is the one that all publications of the route together give |
| IngressHistory.FitsMeaning | internal/agent/runtime/ingress_store.go:149-181 | routes that fit: the config continues every committed one and raises what was left out since |
| IngressHistory.HistoryGrows | internal/agent/runtime/ingress_store.go:183-215 | a commit of an admissible candidate keeps the whole history invariant |
| IngressHistory.HistoryMeaning | internal/agent/runtime/ingress_store.go:149-215 | read out: revisions and cutovers never fall, one spec a revision, one deployment a cutover |
| IngressSafety.GatewayServesCommittedOrPending | internal/agent/runtime/ingress.go:38-128 | in every reachable state the gateway serves the committed (or cleared) config or the pending one, and the former when nothing is pending |
| IngressSafety.CrashLosesNothing | internal/agent/runtime/ingress_store.go:276-369 | in every reachable state the file has memory's committed config, fences and pending config, is well formed, and holds at most the maximum of fences |
| IngressSafety.CommittedRoutesAreMonotone | internal/agent/runtime/ingress_store.go:149-215 | over all configs the agent ever took as committed, in every run, revisions and cutovers of a route never decrease, one revision one spec, one cutover one deployment |
| IngressSafety.CommittedRevisionNeverFalls | internal/agent/runtime/ingress_store.go:63-82 | in every run no abort, replay, failure or crash lowers the committed revision or undoes an answered commit |
| IngressSafety.RetiredRouteStaysRetired | internal/agent/runtime/ingress_store.go:149-215 | once a commit that leaves a route out was answered, no run makes the gateway serve it again at a revision committed before |
| IngressSafety.FileAgreesUnlessLateFailure | internal/agent/runtime/state_file.go:104-115 | a step makes file and memory differ exactly when a write replaced the file and then failed |
| IngressSafety.LateAbortStrandsConfig | internal/agent/runtime/ingress_store.go:217-242 | for every first config a run with one late failure of an abort's write after which the gateway serves it, neither committed nor pending; what is published is wrong exactly when the config has a route |
| IngressSafety.LateCommitClearsGateway | internal/agent/runtime/ingress_store.go:183-215 | for every first config a run with one late failure of a commit's write after which it is committed and the gateway cleared; what is published is wrong exactly when the config has a route |
| IngressSafety.PromiseSurvivesLatePreparesOnly | internal/agent/runtime/state_file.go:104-115 | the gateway promise, of the config served and of the routes published, survives the late failures of some kinds of write exactly when they are prepares' only |
| IngressSafety.FileCarriesForLatePreparesOnly | internal/agent/runtime/state_file.go:104-115 | so does the promise that the file carries what memory holds |
| IngressSafety.RetirementSurvivesUnlessCommitsFailLate | internal/agent/runtime/state_file.go:104-115 | no route that a committed config left out is served at an old revision, answered or not, in all runs exactly when no commit's write fails late |
| IngressSafety.LateCommitKeepsRetired | internal/agent/runtime/ingress_store.go:183-215 | a run with one late failure of a commit's write after which the removal of a route is committed and the route still served |
| IngressAnswers.PrepareIsAnswered | internal/agent/runtime/ingress_store.go:123-147 | a prepare goes on with the pending config, replays the committed one, is refused while another is pending, and any other is taken up exactly when the history admits it and its write succeeds |
| IngressAnswers.CommitIsAnswered | internal/agent/runtime/ingress.go:67-91 | a commit replays the committed config, goes on with the pending one, and is refused for any other |
| IngressAnswers.AbortIsAnswered | internal/agent/runtime/ingress.go:93-113 | an abort goes on with the pending config, succeeds at once exactly with nothing pending and a revision above the committed one, and else is refused |
| IngressAnswers.AdmissiblePrepareSucceeds | internal/agent/runtime/ingress.go:38-65 | an admissible prepare in which nothing fails is answered with success, served, pending and on file |
| IngressAnswers.PendingCommitSucceeds | internal/agent/runtime/ingress.go:67-91 | a commit of the pending config in which nothing fails leaves it committed, on file and served |
| IngressAnswers.PendingAbortSucceeds | internal/agent/runtime/ingress.go:93-113 | an abort of the pending config in which nothing fails drops it, on file too, and brings back the committed one |
| IngressAnswers.FailedPrepareIsUndone | internal/agent/runtime/ingress.go:52-62 | a prepare whose gateway call or probe fails is answered with that failure once the committed config is back and the prepared one dropped |
| Coordinators.RetireRoute | internal/modules/applicationroute/biz/retirement.go:256-289 | makes the automaton's moves; its events are prepare, commit and finish with their records, or stop at the first failure, which it reports |
| Coordinators.ReconcileRoute | internal/modules/applicationroute/biz/reconciliation.go:127-157 | makes the automaton's moves; settles with the whole plan or a recorded abort, aborts exactly after a refused prepare, and leaves every answer open that leaves the gateway's state open |
| Coordinators.PrepareCutover | internal/modules/applicationroute/biz/cutover.go:128-153 | makes the automaton's moves; whatever fails in the prepare or its record, the last thing it does is ask for the abort, and the outcome is ambiguous exactly when that is not accepted |
| Coordinators.CommitCutover | internal/modules/applicationroute/biz/cutover.go:176-195 | makes the automaton's moves; refuses before the control plane is marked, and otherwise commits and records, or reports the first failure |
| Coordinators.RestoreCutover | internal/modules/applicationroute/biz/cutover.go:207-221 | one abort request, success exactly on its acceptance, and no record |
| Coordinators.PreparedCutoverIsRecorded | internal/modules/applicationroute/biz/cutover.go:128-153 | a cutover's prepare in which nothing fails leaves the document prepared |
| Coordinators.CommittedCutoverIsRecorded | internal/modules/applicationroute/biz/cutover.go:176-195 | a cutover's commit in which nothing fails publishes its routes on the document and keeps the transaction |
| Coordinators.ReconciledRouteIsRecorded | internal/modules/applicationroute/biz/reconciliation.go:127-157 | a reconciliation in which nothing fails publishes its routes on the document and ends the transaction |
| Coordinators.RetiredRouteIsRecorded | internal/modules/applicationroute/biz/retirement.go:256-289 | a retirement in which nothing fails publishes its routes, unless it had before, and ends the transaction |
| HostSafety.StepKeepsSystemInv | internal/modules/applicationroute/biz/cutover.go:77-89 | every step of servers, channel and agent keeps the system invariant |
| HostSafety.RunKeepsSystemInv | internal/modules/applicationroute/biz/retirement.go:234-239 | the invariant holds after every run |
| HostSafety.RunIsAgentRun | internal/agent/runtime/ingress.go:38-128 | seen from the agent, a run of the system is a run of the agent |
| HostPromises.CommitsFollowTheirRecord | internal/modules/applicationroute/biz/cutover.go:155-195 | a config is committed in the agent's memory or file, or a commit for it sent, only after the control plane was marked (cutovers) or its prepare recorded |
| HostPromises.RetirementNeverAborts | internal/modules/applicationroute/biz/retirement.go:256-289 | no abort is ever sent for a retirement's config |
| HostPromises.CompletedStaysCommitted | internal/modules/applicationroute/biz/reconciliation.go:127-157 | a revision recorded as complete is at most the agent's committed revision, now and after any further run |
| HostPromises.FinishedRetirementIsCurrent | internal/modules/applicationroute/biz/retirement.go:256-289 | when a retirement finishes, the agent's committed config is its own and lacks the route |
| HostPromises.RetiredRouteIsGone | internal/modules/applicationroute/biz/retirement.go:256-289 | after a finished retirement no run makes the gateway serve the route at a revision committed before it |
| ReconciliationAborts.ReconciliationNeverAbortsCommitted | internal/modules/applicationroute/biz/reconciliation.go:127-157 | with reconciliation calls one at a time, and any other coordinator calls beside them, none aborts a config it sent a commit for |
| ReconciliationAborts.ConcurrentReconcilersAbortCommitted | internal/modules/applicationroute/biz/reconciliation.go:127-157 | with two at once, for every first config that is probed, a run in which the agent refuses the second worker's prepare after the first sent the commit, and the second is about to abort it |
| ReconciliationAborts.PromiseHoldsForOneReconciler | internal/modules/applicationroute/biz/reconciliation.go:127-157 | all runs with at most n reconciliation calls at once keep the promise exactly when n is at most one |
| CutoverLog.StaleAgrees | internal/agent/runtime/cutover_store.go:94-133 | one watermark decides staleness exactly as the slot's whole log does |
| CutoverLog.CallKeepsInv | internal/agent/runtime/cutover_store.go:94-201 | every call, however its write ends, keeps memory and file standing for their logs |
| CutoverLog.RestartKeepsInv | internal/agent/runtime/cutover_store.go:225-258 | so does a restart |
| CutoverLog.ObserveAnswersAsLog | internal/agent/runtime/cutover_store.go:94-133 | Observe answers, whenever it answers, exactly as an unbounded log of accepted observes and cancels |
| CutoverLog.ObserveIsAnswered | internal/agent/runtime/cutover_store.go:94-133 | Observe fails exactly for want of room for a new slot or when a write it needs fails, needs one exactly for a sequence above all the slot noted, answers otherwise as the log, and notes what it lets through |
| CutoverLog.CancelIsAnswered | internal/agent/runtime/cutover_store.go:135-173 | so does Cancel, which needs a write unless its execution is stale, and is noted unless a newer execution or another of its sequence was there |
| CutoverLog.ReleaseIsAnswered | internal/agent/runtime/cutover_store.go:175-201 | a release of the slot's newest execution forgets the slot, of a slot without a log does nothing, and any other is refused |
| CutoverLog.RunKeepsSlot | internal/agent/runtime/cutover_store.go:94-201 | what a slot's log holds survives any run of calls, writes that fail before or after the rename, and restarts, without a release of the slot |
| CutoverLog.OverruledStaysOverruled | internal/agent/runtime/cutover_store.go:94-173 | once the log overrules an execution, every later Observe of it says stale, until a release of the slot is attempted |
| CutoverStore.WrittenEntriesLoad | internal/agent/runtime/cutover_store.go:225-295 | whatever a store within its rules writes loads back to the same map |
| CutoverStore.LoadsExactly | internal/agent/runtime/cutover_store.go:225-258 | the loader accepts exactly documents of its version that repeat no slot and whose map is within the rules |
| CutoverStore.WriteStaysWithinRules | internal/agent/runtime/cutover_store.go:94-201 | no call writes more than the maximum of entries, or an invalid one |
| CutoverStore.FileCutoverStore.Observe | internal/agent/runtime/cutover_store.go:94-133 | does what the log semantics says, failed writes included; when and what it answers is told by the log |
| CutoverStore.FileCutoverStore.Cancel | internal/agent/runtime/cutover_store.go:135-173 | does what the log semantics says; on success the execution is stale; when it succeeds is told by the log |
| CutoverStore.FileCutoverStore.Release | internal/agent/runtime/cutover_store.go:175-201 | forgets exactly the slot's current watermark, or changes nothing in memory |
| CutoverStore.FileCutoverStore.ProtectsRemoval | internal/agent/runtime/cutover_store.go:203-223 | succeeds exactly when the log holds this execution or a newer one; then every older one is stale |
| CutoverStore.FileCutoverStore.Load | internal/agent/runtime/cutover_store.go:225-258 | succeeds exactly on loadable documents, and rebuilds their map |
| CutoverStore.FileCutoverStore.Restart | internal/agent/runtime/cutover_store.go:225-258 | the store's own file always loads, and stands for the log it should |
| CutoverStore.CanceledIsStale | internal/agent/runtime/cutover_store.go:135-173 | a cancel that succeeds leaves the execution stale, whether it wrote or met a newer watermark |
| DockerEngine.Engine.Create | internal/agent/runtime/docker_deployment.go:236-246 | a free name gets a fresh ID, or nothing changes; an error leaves open which |
| DockerEngine.Engine.Rename | internal/agent/runtime/docker_deployment.go:322-328 | by ID, refused when the target is taken; an error leaves open whether it happened |
| DockerEngine.Engine.Remove | internal/agent/runtime/docker_deployment.go:457-462 | by ID, absent counts as removed; an error leaves open whether it happened |
| DeploymentSlots.NamesDiffer | internal/agent/runtime/docker_deployment.go:584-609 | the three names of an execution are different, whatever the truncated hash |
| DeploymentSlots.TokensSeparateNames | internal/agent/runtime/docker_deployment.go:584-604 | two executions of one deployment share a candidate or previous name exactly when they share the fencing token |
| DeploymentSlots.FencesAreComparable | internal/agent/runtime/docker_deployment.go:522-553 | a managed container is newer, this execution's, or older, and exactly one of them |
| DeploymentSlots.InterruptedRunIsRecoverable | internal/agent/runtime/docker_deployment.go:190-446 | however often stage, activate and cancel of an execution were interrupted, a completed cancel returns the slot to what it was |
| DeploymentSlots.CancelRestores | internal/agent/runtime/docker_deployment.go:391-446 | from every place an interrupted execution may stand, cancel is not refused and restores the slot |
| DeploymentSlots.StepStaysUnderway | internal/agent/runtime/docker_deployment.go:190-446 | stage, activate and cancel, stopped anywhere, stay among those places |
| DeploymentSlots.RecoverableExactly | internal/agent/runtime/docker_deployment.go:190-446 | every interrupted run from a slot can be cancelled back to it exactly when its stable container is not one of this deployment and sequence with a token up to this one's |
| DeploymentSlots.RetriedExecutionCannotBeCancelled | internal/agent/runtime/docker_deployment.go:416-428 | over the same deployment and sequence with a smaller token, no cancel ever changes the activated slot |
| DeploymentSlots.OwnedStableIsRemoved | internal/agent/runtime/docker_deployment.go:416-428 | over an equal token, cancel removes the stable container |
| DeploymentSlots.SameSlotSameContainers | internal/agent/runtime/docker_deployment.go:391-446 | equal slots, and nothing else touched, mean the same containers throughout |
| DeploymentSlots.ActivatedKeepsOldStable | internal/agent/runtime/docker_deployment.go:309-331 | after an activation the old stable container stands, the same one, under the previous name |
| DeploymentSlots.ActivationNeverFallsBack | internal/agent/runtime/docker_deployment.go:269-353 | an activation, stopped anywhere, never puts a smaller cutover sequence under the stable name than it found there |
| DockerDeployment.StageDeployment | internal/agent/runtime/docker_deployment.go:190-267 | changes at most its own candidate; undisturbed, the slot and what the engine told decide the answer and the slot left; a candidate it reports staged was seen running or started, and then ready |
| DockerDeployment.AwaitReady | internal/agent/runtime/docker_deployment.go:243-266 | starts the candidate unless it was seen running, and says ready exactly as told |
| DockerDeployment.ActivateDeployment | internal/agent/runtime/docker_deployment.go:269-353 | ends in one of the listed arrangements; changes nothing unless the candidate was first seen running and healthy, and says so; undisturbed, the slot and that report decide the answer and the slot left |
| DockerDeployment.MoveCandidate | internal/agent/runtime/docker_deployment.go:343-351 | moves the candidate, or tidies up, by ID wherever an ambiguous rename left it |
| DockerDeployment.RestorePrevious | internal/agent/runtime/docker_deployment.go:797-817 | puts the kept container back only when nothing holds the stable name |
| DockerDeployment.RetirePreviousDeployment | internal/agent/runtime/docker_deployment.go:355-389 | removes at most the previous container, only under an owned stable one; undisturbed, the slot decides the answer and the slot left |
| DockerDeployment.CancelDeployment | internal/agent/runtime/docker_deployment.go:391-446 | success is exactly the cancelled slot; undisturbed, it succeeds exactly unless blocked, and then drops the candidate alone |
| DockerDeployment.RemoveNamedOwnedCandidate | internal/agent/runtime/docker_deployment.go:717-729 | removes nothing but this execution's candidate |
| DockerDeployment.RemoveOwnedContainer | internal/agent/runtime/docker_deployment.go:731-750 | removes nothing but a container of this execution |
| DockerDeployment.RemoveManagedContainerStrict | internal/agent/runtime/docker_deployment.go:772-795 | success means the name is free; an unmanaged container is never removed |
| DockerDeployment.CancelAfterInterruptions | internal/agent/runtime/docker_deployment.go:190-446 | after any interrupted stages, activations and cancels, a completed cancel leaves the engine's containers exactly as before the first |
| DockerDeployment.ActivateUntilAnswered | internal/agent/runtime/docker_deployment.go:269-353 | an activation that crashes any number of times and is re-run ends in the slot an uninterrupted one makes |
| DeploymentExecutor.DockerExecutor.ExecuteDeployment | internal/agent/runtime/docker_deployment.go:88-159 | a command the store fails on reaches no engine, a stale one at most removes its own candidate, and a current one, undisturbed, is answered exactly as its operation; it creates only what the store has noted |
| DeploymentExecutor.DockerExecutor.PrepareDeployment | internal/agent/runtime/docker_deployment.go:161-188 | succeeds exactly when the engine is reached and the image is present, or absent and pulled; each failure has its own code |
| DeploymentExecutor.DockerExecutor.RunCommands | internal/agent/runtime/docker_deployment.go:88-159 | over any script of commands, repeats, crashes and restarts: containers are created at or below their slot's watermark, and an overruled execution only ever removes |
| DeploymentExecutor.NotedIsBelowWatermark | internal/agent/runtime/cutover_store.go:94-133 | what the log noted is at most the slot's watermark |
| DeploymentExecutor.StaleStays | internal/agent/runtime/cutover_store.go:94-173 | an execution overruled by a log is overruled by every log that grew from it |
| CommandFingerprint.BytesDetermineCommand | internal/shared/agentprotocol/command.go:192-257 | two commands feed the hash the same bytes exactly when they are the same command, up to event times equal in 64-bit nanoseconds |
| CommandFingerprint.DurableBytesDetermineCommand | internal/shared/agentprotocol/command.go:192-257 | for durable and ingress kinds the bytes determine ID, kind, deadline and the whole payload |
| CommandFingerprint.DistantEventTimesCollide | internal/shared/agentprotocol/command.go:234-241 | event times 2^64 nanoseconds apart give different commands one fingerprint |
| CommandFingerprint.PeelSpec | internal/shared/agentprotocol/command.go:675-716 | a runtime spec is uniquely decodable, with or without a health check |
| CommandFingerprint.PeelDeployment | internal/shared/agentprotocol/command.go:208-228 | a deployment payload is uniquely decodable |
| CommandFingerprint.Fingerprint | internal/shared/agentprotocol/command.go:192-257 | the hasher is fed exactly these bytes, for a valid command only |
| CommandFingerprint.Equivalent | internal/shared/agentprotocol/command.go:183-187 | true exactly for two valid commands that are the same command |
| CommandFingerprint.ValidateCommand | internal/shared/agentprotocol/command.go:131-177 | the kind's own payload is set, valid, and no other is |
| CommandDocuments.Transport | internal/shared/agentprotocol/wire.go:107-193 | a command arrives saying the same, nil and empty lists and zones settled; a valid one with its own fingerprint; the fingerprints before and after differ exactly for a stage spec with empty lists that are not nil |
| CommandDocuments.FingerprintHeld | internal/shared/agentprotocol/command.go:192-257 | a command has a fingerprint as held exactly when what it says is valid and a stage spec equals its own copy |
| CommandDocuments.InvalidOnlyForEmptyLists | internal/shared/agentprotocol/command.go:595-610 | a command that says something valid is invalid as held exactly when it stages ports or environment keys that are empty and not nil |
| CommandDocuments.ArrivesAsOne | internal/shared/agentprotocol/wire.go:107-193 | two ways of holding a command arrive as one exactly when they say the same |
| CommandDocuments.SettledSaysTheSame | internal/shared/agentprotocol/wire.go:151-193 | settling nil lists and zones changes nothing that is said |
| CommandDocuments.NewCommandDocument | internal/shared/agentprotocol/wire.go:107-149 | the document says what the command says, in UTC |
| CommandDocuments.Domain | internal/shared/agentprotocol/wire.go:151-193 | the command is the settled one that says what the document says |
| CommandResults.EquivalentIsEqual | internal/shared/agentprotocol/command.go:421-434 | for results of one kind, equivalence is equality |
| ResultCache.WindowSlides | internal/agent/runtime/result_cache.go:130-143 | inserting and evicting the oldest keeps exactly the last maximum of the history |
| ResultCache.StoredMatchesExactly | internal/agent/runtime/result_cache.go:88-102 | what was stored for a durable command matches that command and no other |
| ResultCache.WrittenWindowLoads | internal/agent/runtime/result_cache.go:183-218 | results and eviction order come back from the file, which is always within the loader's limits |
| ResultCache.DocumentFits | internal/agent/runtime/result_cache.go:258-286 | a file of at most 4096 entries stays under 4 MiB |
| ResultCache.EntryIsShort | internal/agent/runtime/result_cache.go:293-308 | the JSON of one kept result is at most 480 bytes |
| ResultCache.FileResultCache.Lookup | internal/agent/runtime/result_cache.go:78-102 | answers from the last maximum stored results, and refuses another command's ID |
| ResultCache.FileResultCache.Store | internal/agent/runtime/result_cache.go:104-156 | extends the history, agrees with what is kept, or refuses; a failed write puts map and order back exactly |
| ResultCache.FileResultCache.Push | internal/agent/runtime/result_cache.go:130-143 | the new entry is the newest; the oldest goes when the order is too long |
| ResultCache.FileResultCache.Undo | internal/agent/runtime/result_cache.go:144-154 | takes back insertion and eviction |
| ResultCache.FileResultCache.PersistLocked | internal/agent/runtime/result_cache.go:258-286 | writes the entries in eviction order |
| ResultCache.FileResultCache.Load | internal/agent/runtime/result_cache.go:183-218 | succeeds exactly on loadable documents; map and order represent what they list |
| ResultCache.FileResultCache.Restart | internal/agent/runtime/result_cache.go:158-218 | the cache's own file always loads, to the history it shows |
| CommandExecution.StepKeepsInv | internal/agent/runtime/docker_probe.go:106-193 | every step of any call, and a restart, keeps the invariant of calls, records and cache |
| CommandExecution.OneOwnerPerId | internal/agent/runtime/docker_probe.go:267-284 | in every run at most one call is executing a command ID |
| CommandExecution.RepliesAgree | internal/agent/runtime/docker_probe.go:106-193 | two results given for one durable ID are the same, unless at least maximum others were stored between their sources |
| CommandExecution.RepliesAgreeBeforeEviction | internal/agent/runtime/docker_probe.go:106-193 | while nothing was evicted there is one result for one durable ID, over restarts too |
| CommandExecution.InsertionSpaced | internal/agent/runtime/result_cache.go:120-129 | the cache takes a second result for an ID only after evicting the first |
| CommandExecution.CachedIsNeverRun | internal/agent/runtime/docker_probe.go:113-117 | a durable command that arrives while a record of its ID is kept has its answer for good, the kept result or a refusal, and never comes to run |
| CommandExecution.UnknownGoesOn | internal/agent/runtime/docker_probe.go:113-122 | one of which none is kept goes on to be run or joined |
| CommandExecution.RedeliveryIsAnswered | internal/agent/runtime/docker_probe.go:106-193 | in every run a durable command that was answered with a result gets that result again when it is delivered again, unless it was evicted |
| CommandRunner.CommandRunner.Enter | internal/agent/runtime/docker_probe.go:106-117 | is the arrival step; answers from the kept results: that of this very command, a refusal for another with its ID, and nothing exactly when none is kept |
| CommandRunner.CommandRunner.Join | internal/agent/runtime/docker_probe.go:267-284 | is the begin step; owns a new record exactly when none is in flight for the ID, waits for one of the same command, and refuses any other |
| CommandRunner.CommandRunner.Complete | internal/agent/runtime/docker_probe.go:189-193 | is the run step; hands the result on exactly when it is valid and the one kept for this command, or newly stored |
| CommandRunner.CommandRunner.Close | internal/agent/runtime/docker_probe.go:286-298 | frees the ID and hands the result to the waiters |
| CommandRunner.CommandRunner.Take | internal/agent/runtime/docker_probe.go:300-310 | a waiter gets the closed record's result, which is the owner's |
| InventoryChunks.Split | internal/shared/runtimeinventory/chunk.go:16-89 | succeeds exactly on sound inventories that can be split and meet no overshooting cut, and says why else; the chunks concatenate to the input, are numbered, non-empty and within both bounds by true length, and are the fewest of any order-preserving partition within them |
| InventoryChunks.GreedyExactly | internal/shared/runtimeinventory/chunk.go:50-87 | the greedy cut succeeds exactly on what can be split at all, unless one of its cuts overshoots |
| InventoryChunks.ScreeningMeaning | internal/shared/runtimeinventory/chunk.go:29-49 | the screening passes exactly what has no invalid or repeated resource and is within the snapshot bytes |
| InventoryChunks.FirstRefusal | internal/shared/runtimeinventory/chunk.go:29-49 | what it refuses, it refuses for the first resource at fault |
| InventoryChunks.GreedyIsWellCut | internal/shared/runtimeinventory/chunk.go:50-87 | the greedy chunks concatenate to the input, numbered, non-empty and within the bounds |
| InventoryChunks.GreedyIsFewest | internal/shared/runtimeinventory/chunk.go:50-87 | greedy stays ahead: no partition within the bounds has fewer parts |
| InventoryChunks.SplittableIsSplitUnlessOvershot | internal/shared/runtimeinventory/chunk.go:79-81 | a splittable inventory is split exactly when no greedy cut overshoots |
| InventoryChunks.OvershootIsTwoBytes | internal/shared/runtimeinventory/chunk.go:109-117 | an overshooting cut is one or two bytes too long |
| InventoryChunks.SplittableButRefused | internal/shared/runtimeinventory/chunk.go:79-81 | two resources that fit in a chunk each, refused |
| InventoryChunks.TrueSize | internal/shared/runtimeinventory/chunk.go:109-117 | the computed size is two bytes less than the text |
| InventoryChunks.CutChunk | internal/shared/runtimeinventory/chunk.go:53-67 | the nested loops find the first item that no longer seems to fit |
| InventoryChunks.Screen | internal/shared/runtimeinventory/chunk.go:29-49 | the loop reports the first invalid or repeated resource or the excess of bytes |
| InventoryChunks.ScreenedAreDistinct | internal/shared/runtimeinventory/chunk.go:29-49 | what passes is valid, free of duplicates and within the snapshot bytes |
| InventoryChunks.KeyIsInjective | internal/shared/runtimeinventory/chunk.go:34-38 | the key tells resources apart exactly by kind and runtime ID |
| CaddyConfig.BuildCaddyConfig | internal/agent/runtime/caddy_gateway.go:260-327 | the loop compiles exactly valid commands; listeners, SNI check and skip list match the TLS modes |
| CaddyConfig.PublishedGoesToItsBackend | internal/agent/runtime/caddy_gateway.go:270-290 | by first match a published host goes to its own backend, marked exactly when the request carries its route's token |
| CaddyConfig.UnpublishedIsNotFound | internal/agent/runtime/caddy_gateway.go:297-298 | every other host gets 404 |
| CaddyConfig.DialDeterminesBackend | internal/agent/runtime/caddy_gateway.go:274-275 | two routes have one dial text exactly when they share alias and port |
| CaddyConfig.ProbeHashDeterminesRoute | internal/agent/runtime/caddy_gateway.go:329-332 | before it is cut short, the hash of a probe token tells configs and routes apart |
| CaddyConfig.AnswerRequest | internal/agent/runtime/caddy_gateway.go:260-327 | evaluating the generated routes is looking the host up in the command |
| CaddyConfig.HttpsMatchesTlsModes | internal/agent/runtime/caddy_gateway.go:291-312 | HTTPS serves exactly the hosts whose routes ask for automatic TLS |
| CaddyConfig.ConfigIdDeterminesRoutes | internal/agent/runtime/caddy_gateway.go:217-239 | a running config with the command's ID already has the command's routes, so no reload is needed |
| RateWindow.Reserve | internal/platform/ingress/mongo.go:31-82 | granted exactly when this call added one version by its own clock; fails exactly when a database call did; denied only by a window that was full during the call, or after as many other reservations as attempts |
| RateWindow.WindowsKeepTheLimit | internal/platform/ingress/mongo.go:56-78 | no window of a millisecond or more ever holds more reservations than the limit |
| RateWindow.LimitHoldsExactly | internal/platform/ingress/mongo.go:56-78 | the limit holds in every history exactly for windows of at least the database's millisecond |
| RateWindow.RequestsCountReservations | internal/platform/ingress/mongo.go:64-66 | the document counts exactly the reservations of its window |
| RateWindow.EachSuccessRaisesRevision | internal/platform/ingress/mongo.go:64-78 | each success raises the revision by exactly one |
| RateWindow.OutlivesItsWindow | internal/platform/ingress/mongo.go:64-67 | a document does not expire before its window has ended |
| RateWindow.WindowsAreApart | internal/platform/ingress/mongo.go:56-60 | two recorded window starts are equal or at least a window's whole milliseconds apart, by any servers' clocks |
| RateWindow.WindowsAreApartExactly | internal/platform/ingress/mongo.go:56-60 | at least a window apart in every history exactly for windows of whole milliseconds and those below one |
| RateWindow.RateCollection.InsertOne | internal/platform/ingress/mongo.go:42-53 | one insert wins, recorded in whole milliseconds; an error leaves open whether it happened |
| RateWindow.RateCollection.ReplaceOne | internal/platform/ingress/mongo.go:68-77 | replaces only the revision that was read, recorded in whole milliseconds |

## Left out

- IngressProtocol.ValidateIngressCommand: the 64-digit text of digests is not stated, because a digest is modelled by its input.
- IngressFenceStore.WrittenStateLoads: nor is the loader's rule for that text.
- IngressFenceStore.FileIngressFenceStore.ValidateLoadedState: nor here.
- IngressFenceStore.FileIngressFenceStore.Load: nor here; JSON text and file permissions are not modelled.
- IngressSafety.GatewayServesCommittedOrPending: assumes that no abort's or commit's write fails after its rename; `PromiseSurvivesLatePreparesOnly` shows that this is exactly what it needs.
- IngressSafety.CrashLosesNothing: assumes the same, and `FileCarriesForLatePreparesOnly` shows that it must.
- CommandFingerprint.ValidateCommand: image references, most of runtime spec normalisation, environment lists and the size of the command document are not modelled, nor are inventory payloads of results.
- ResultCache.FileResultCache.Load: version 1 files and the hexadecimal form of fingerprints are not modelled.
- CaddyConfig.BuildCaddyConfig: the generated config's fixed settings and its size limit are not modelled; host names are compared as written, where Caddy ignores case.
- JSON text, file permissions, temporary files: a document is written in one step; JSON is spelled out only where its length matters (result cache, inventory chunks); a command document goes from mapper to mapper.
- The ingress and cutover stores' own 4 MiB check before writing: it reads as a failed write that keeps the file.
- Liveness: an orphaned pending config can block later revisions, and no theorem says a transaction ends.
- The three transaction fields of the host document are one slot, since each allocation excludes the others; the Mongo stores are modelled by their update filters only.
- `CutoverCoordinator.Begin`, `Abort`, `FinalizeAbort`, `Finish`, `Required` and `Pending`, request validation and `SameCutover`: checks and single store calls; `FinalizeAbort` and `Finish` appear as moves of the automaton.
- Host revisions and rate revisions are unbounded, where the source's 64-bit counters wrap.
- DeploymentSlots.InterruptedRunIsRecoverable: one execution's commands run one at a time; interleaved activations are not covered.
- Container state, health polling and deadlines: an inspection reports any state and a wait ends ready or not.
- `removeRuntime`, the network inspection beyond a yes or no, and what a created container runs.
- The commands' own effects in `CommandExecution`: a run ends in any result or error.
- Expiry of rate documents, and more than one key.
- `Chunk.Validate`, and what makes a single inventory resource valid.
- Docker, Caddy and Mongo clients, the control stream, certificates, HTTP handlers, configuration and release tools.
