# Durable state of the launchpad server, modelled in Dafny

The server keeps durable state in three places: a JSON store, append-only event logs, and Git
repositories with marker files beside them. It promises that crashes, retries and cancellation
neither lose nor invent work. This project models the protocols behind that promise, together with
the text and graph algorithms around them, and proves what they keep.

| module | what it models |
|---|---|
| `AttemptWorkspace` | ownership of an attempt's workspace through a sidecar file, with crash-surviving views of the directory |
| `LockedAttempts` | the operations of `AttemptWorkspace` under the lock of `KeyedLock` |
| `ProjectRegistry` | two-phase publication of a project baseline across the store and a Git ref, interleaved with recovery |
| `KeyedLock` | the per-key promise queue (attempt lock, and the integrator's per-run queue) |
| `TerminalPublication` | a run's completion across store intent, closed event log and restart |
| `RestartRecovery` | startup recovery of interrupted runs, their agents and their repair state |
| `EventLog` | the event log's buffer, queue, file, close barrier and reads |
| `SessionClose` | the close barrier over all logs of a session, and what readers see behind it |
| `ContributionIntegrator` | cherry-pick, gate, verification and rollback on the canonical checkout |
| `JsonStore` | the serialised, failure-atomic store |
| `EvolutionOutbox` | merging of delivery outboxes |
| `Redactor`, `Truncation`, `RunEvents` | secret masking, truncation and sanitising of run events |
| `SafeDrafts` | what a sanitized event holds, and which drafts sanitizing leaves alone |
| `MarkerSecrets` | exactly which secrets a second sanitising pass changes |
| `TrajectoryLog` | rendering of the readable log and its hold queue |
| `LineageTree` | depth-first ordering of a lineage graph |

Objects whose methods update fields are classes; their methods are proved against functions or
predicates on values, and the theorems about all runs are lemmas about those. Two conventions carry
the crash reasoning:

- In `AttemptWorkspace` every file-system call may fail, fail after taking effect, or be cut off by a
  crash, after which all later calls fail without effect. What holds when an operation ends therefore
  holds at each point where it can be cut off. `surviving` is the set of sidecars a crash may leave:
  a write adds to it, a directory sync reduces it to the current one.
- In `ProjectRegistry`, `KeyedLock`, `JsonStore`, `TerminalPublication` and `EventLog` runs are
  sequences of atomic steps with crashes and faults between any two.

In `ContributionIntegrator` the decisions of the other parties (cancellation, cherry-pick, gate,
verifier) are inputs, while failing commands and outside writers strike where the code waits.

## Findings

Properties that fail of the code are stated with an input on which they fail and the exact condition
under which they hold.

- An `admit` overlapping a live `advanceBaseline` can clear its transition, after the swap or before it;
  ref and record then disagree until the ref is moved or an advance aims at its commit
  (`ProjectRegistry.OverlappingAdmitLosesBaseline`, `ProjectRegistry.OverlappingAdmitClearsFirst`,
  `ProjectRegistry.DisagreementIsPermanent`). Which steps keep agreement is
  `ProjectRegistry.AgreementKeptIffHarmless`; without such an overlap no run of the server's own steps loses
  it, as long as no swap is misreported (`ProjectRegistry.CrashRecoveryConverges`).
- Two `admit`s that recover the same project at once can leave it unavailable although ref and record
  agree (`ProjectRegistry.OverlappingAdmitsEndUnavailable`): one settles the transition that the other has
  read. `ProjectRegistry.OverlappingRecoveriesEndReadyIff` says exactly when they end ready.
- A swap that takes effect and is reported as failed makes the advance clear its transition, and ref and
  record disagree (`ProjectRegistry.ReportedSwapLosesBaseline`, `ProjectRegistry.ReportedSwapIsLostIff`).
- A restart that cannot read a run's log cancels a run that readers have seen completed
  (`TerminalPublication.UnreadableLogCancelsSeenRun`, `TerminalPublication.PromiseNeedsReadableLog`).
- Closing a leader hides the completion of a child that readers have already seen, and keeps it hidden when
  an append of any member has failed (`SessionClose.LeaderHidesChild`, `SessionClose.SeenIsHiddenIff`,
  `SessionClose.SeenAgainIff`).
- Grouping of outbox merges matters once an intermediate list exceeds 1,000 entries
  (`EvolutionOutbox.GroupingMattersBeyondLimit`, `EvolutionOutbox.MergeAssociative`).
- Readers of the event log see events before they are on disk (`EventLog.ShownEventCanBeLost`,
  `EventLog.RestartKeepsAllIffDrained`), and an append that succeeds after one that failed leaves a gap
  (`EventLog.FailedAppendLeavesGap`, `EventLog.FileIsGapFreeIff`).
- An event that passes as the log's truncation marker silences the log from the next restart on
  (`EventLog.ForgedMarkerSilencesLog`); a marker is otherwise the last event (`EventLog.LogIsGapFree`).
- A text ending in a truncation marker with too many digits is not shortened (`Truncation.ForgedMarkerIsUnbounded`,
  `Truncation.ForgedMiddleIsUnbounded`, `Truncation.HeadIsBoundedIff`, `Truncation.BothEndsAreBoundedIff`).
- A secret that lies over the mask can be re-created by it (`Redactor.StarredSecretCanReappear`,
  `Redactor.ScrubbedIsCleanIff`); one that a truncation marker disturbs makes the second sanitising pass differ
  (`MarkerSecrets.MarkerStartDisturbs`, `MarkerSecrets.SanitizeTwiceIff`).
- The comment on `replayTrajectoryState` says that it mirrors rendering; its command counter does so
  only when each command has as many start as end events (`TrajectoryLog.RepeatedProgressIsCountedTwice`,
  `TrajectoryLog.ReplayMatchesRendering`).

## Model

| member | source | states |
|---|---|---|
| AttemptWorkspace.Manager.CreateLocked | apps/server/src/attempt-workspace-manager.ts:373-428 | A record is returned only if, at that moment, its ready sidecar is the only one a crash can leave and it fits the inspected workspace; a new token only where the workspace was absent and the sidecar missing or for the same work; an existing workspace, foreign sidecar or inadmissible request leaves the disk as it was, at every crash point; undisturbed, a record is returned exactly when `Admits` and `Creatable` hold, and otherwise the error is the first refusal that applies |
| AttemptWorkspace.Manager.CreateWorkspace | apps/server/src/attempt-workspace-manager.ts:404-427 | From a durable creating sidecar: whenever a workspace is left behind, each sidecar a crash can leave names its owner; a checkout that failed but is there in full is rescued when nothing fails after it |
| AttemptWorkspace.Manager.Conclude | apps/server/src/attempt-workspace-manager.ts:408-427 | Behind the checkout: undisturbed, the record is returned exactly for a workspace clean at its base; never after a ready sidecar whose durability could not be confirmed |
| AttemptWorkspace.Manager.ReconcileCreateEntry | apps/server/src/attempt-workspace-manager.ts:558-593 | Adopts the surviving owner with a durable ready sidecar, clears a sidecar for the same work whose workspace is gone, or refuses with nothing changed; which, when undisturbed, is decided by `Creatable` |
| AttemptWorkspace.Manager.Adopt | apps/server/src/attempt-workspace-manager.ts:576-593 | Adopts the owner that the sidecar names, durably, exactly when a ready sidecar fits the inodes or a creating one is promoted |
| AttemptWorkspace.Manager.ReconcileCreateFailure | apps/server/src/attempt-workspace-manager.ts:595-627 | Rescues only the creating owner, durably; drops its sidecar only with the workspace absent; a ready sidecar whose durability could not be confirmed is never returned |
| AttemptWorkspace.Manager.FinalizeCreating | apps/server/src/attempt-workspace-manager.ts:629-658 | Promotes the owner's creating sidecar, bound to the inodes of a workspace inspected as exact, and nothing else |
| AttemptWorkspace.Manager.PublishCreating | apps/server/src/attempt-workspace-manager.ts:774-788 | Writes only where there was no sidecar; on success the creating sidecar is all a crash can leave |
| AttemptWorkspace.Manager.PublishReady | apps/server/src/attempt-workspace-manager.ts:790-824 | Replaces only the very creating sidecar it was given; success, even after a failed rename or sync, means the ready sidecar is all a crash can leave; after a failed rename or sync, with no further failure, it succeeds exactly when the ready sidecar is on disk |
| AttemptWorkspace.Manager.ConfirmReadyDurability | apps/server/src/attempt-workspace-manager.ts:826-854 | Success means the expected ready sidecar is on disk and is all a crash can leave; every failure is the durability error |
| AttemptWorkspace.Manager.RemoveExactSidecar | apps/server/src/attempt-workspace-manager.ts:870-878 | Removes only a sidecar equal to the expected one, and success means that no crash brings it back |
| AttemptWorkspace.Manager.RecoverLocked | apps/server/src/attempt-workspace-manager.ts:430-479 | `removed` means absent and unregistered; each deletion it started had the ready sidecar bound to its inodes on a clean, contained, detached worktree with a Git directory of its own, at the base by head and by registration, both at the inspection and at the final fence, whoever wrote in between; undisturbed, removed exactly then or when already absent, and otherwise preserved for the reason that its fields give |
| AttemptWorkspace.Manager.RemoveFenced | apps/server/src/attempt-workspace-manager.ts:462-475 | The deletion starts only from a disk on which everything holds, and the sidecar goes only after the workspace |
| AttemptWorkspace.Manager.FinalDeletionFence | apps/server/src/attempt-workspace-manager.ts:698-718 | True exactly when the expected sidecar, the inspection and both identities still stand |
| AttemptWorkspace.Manager.RemoveIntegratedLocked | apps/server/src/attempt-workspace-manager.ts:481-556 | Deletes committed work only when attempt, contribution and integration are one recorded story ending at the project head and the workspace holds exactly that commit; otherwise nothing changes |
| AttemptWorkspace.ReturnedRecordSurvivesCrash | apps/server/src/attempt-workspace-manager.ts:790-854 | A crash right after `create` returns still finds the ready sidecar with the record's token, and a retry would adopt it |
| AttemptWorkspace.RetryAdoptsOrReplaces | apps/server/src/attempt-workspace-manager.ts:558-593 | After a crash at any point of a `create`, a retry that returns a record has the surviving sidecar's token if the workspace stands, and a new one only if it is absent and the sidecar was missing or for the same work |
| AttemptWorkspace.ForeignWorkIsKept | apps/server/src/attempt-workspace-manager.ts:566-584 | A sidecar that is invalid or for other work, and the workspace beside it, outlive any `create` and any crash in it |
| AttemptWorkspace.OneOwnerPerWorkspace | apps/server/src/attempt-workspace-manager.ts:393-402 | Over any run of creates, recoveries, removals of integrated work, work by the attempt and crashes: all records returned while one workspace stands have one owner, and none goes to a contended create |
| AttemptWorkspace.OwnerIsKeptThrough | apps/server/src/attempt-workspace-manager.ts:595-627 | While the workspace stands, every sidecar that is or can come back names the same owner |
| AttemptWorkspace.StandingChangesOnlyBy | apps/server/src/attempt-workspace-manager.ts:430-556 | A step changes a standing workspace only as the attempt's own work, as a crash that tears it, as a recovery when owner, ready sidecar, inodes, cleanliness and head hold, or as the removal of exactly the integrated commit |
| AttemptWorkspace.WorkIsNeverDeleted | apps/server/src/attempt-workspace-manager.ts:430-556 | Over any run, a workspace is as its worker last left it for as long as no crash tears it and its state permits no removal, and every removal that is tried reports it preserved |
| AttemptWorkspace.WorkPermitsNoRecovery | apps/server/src/attempt-workspace-manager.ts:660-696 | Changed, conflicted, committed or unverifiable work, field by field, permits no recovery to remove it |
| AttemptWorkspace.RecoverySparesWork | apps/server/src/attempt-workspace-manager.ts:430-479 | A recovery leaves such a workspace as it is and answers preserved: committed only when clean with a head or registration off the base, changed only when dirty without unmerged paths, conflicted only with them |
| AttemptWorkspace.RemovedWasUntouched | apps/server/src/attempt-workspace-manager.ts:447-475 | What a recovery removed was absent already, or clean at its base with its ready sidecar |
| AttemptWorkspace.RemovedWasIntegrated | apps/server/src/attempt-workspace-manager.ts:481-556 | What a removal of integrated work deleted was one clean commit on the base, which the recorded attempt, contribution and integration name |
| AttemptWorkspace.InspectionDecidesByFields | apps/server/src/attempt-workspace-manager.ts:660-696 | Which fields of workspace, registration and directory give which answer of the inspection |
| AttemptWorkspace.RecordNamesItsClaim | apps/server/src/attempt-workspace-manager.ts:373-428 | The record that `create` returns names the very work of the request, so its owner is the one a recovery looks for |
| AttemptWorkspace.ClaimsAreEqualIff | apps/server/src/attempt-workspace-manager.ts:558-593 | Two requests count as the same work exactly when they agree in run, source, attempt, revision, subtask, base, kind and checkpoint |
| AttemptWorkspace.SameMemberIff | apps/server/src/attempt-workspace-manager.ts:1178-1190 | The recorded attempt is the given one exactly when nine fields agree; kind and checkpoint are not compared |
| AttemptWorkspace.OnlyItsOwnerRemoves | apps/server/src/attempt-workspace-manager.ts:447-556 | From the returned record to the end of its workspace, whatever touches it is its worker, a crash, or a permitted removal that names the record's own claim and token |
| LockedAttempts.OverlapIsContended | apps/server/src/attempt-workspace-manager.ts:154-179 | Of two creates on one key of which the second arrived while the first was live, the second ends later and is told that it was contended |
| LockedAttempts.AtMostOneOverlappingCreateReturns | apps/server/src/attempt-workspace-manager.ts:393-402 | Of two such creates at most one returns a record, while the workspace stands |
| ProjectRegistry.Registry.AdvanceBaseline | apps/server/src/project-registry.ts:220-248 | Succeeds exactly for a ready project without a transition whose baseline is the expected commit and whose ref is missing or there; on failure the record keeps its baseline, and the ref has moved to the next commit only with the transition still stored |
| ProjectRegistry.PrepareRefusesIff | apps/server/src/project-registry.ts:350-386 | Which of its refusals a request to advance meets, in the order of the checks, and the transition it stores otherwise |
| ProjectRegistry.FinalizeNeedsItsTransition | apps/server/src/project-registry.ts:388-413 | Only the stored prepared transition is finalized; it takes the baseline to its next commit and clears transition and error |
| ProjectRegistry.Registry.EnsureBaseline | apps/server/src/project-repository-manager.ts:120-134 | Creates a missing ref at the commit; otherwise succeeds only if the ref is there already |
| ProjectRegistry.Registry.CompareAndSwap | apps/server/src/git-client.ts:517-537 | Moves the ref only from the expected commit |
| ProjectRegistry.Registry.RecoverOneProject | apps/server/src/project-registry.ts:256-293 | For every choice of failing inspections, commands and writes, leaves what `RecoveredBy` says: next or expected commit as the ref has it, or unavailable with the fault |
| ProjectRegistry.FaultParksProject | apps/server/src/project-registry.ts:256-317 | The first thing that fails parks the project with its fault, and baseline and transition stay, or are settled if only the last write fails |
| ProjectRegistry.BaselinesFormAChain | apps/server/src/project-registry.ts:350-432 | Under every interleaving of advances, admits, recoveries, outside ref writes and crashes: successive baselines are linked by prepared transitions whose next commit the ref has held, every transition is accounted for, and a stored one starts at the current baseline |
| ProjectRegistry.NextSafe | apps/server/src/project-registry.ts:220-348 | Every step of every actor keeps the chain and what each live call knows about it |
| ProjectRegistry.CrashRecoveryConverges | apps/server/src/project-registry.ts:319-348 | From every run in which no recovery overlaps a live advance, no swap is misreported and nobody else writes the ref, however many of either overlap each other and wherever a crash strikes: record and ref agree, and one undisturbed recovery ends ready with ref == baseline, which is next exactly when the swap had happened; another changes nothing; with a missing ref the transition and baseline are kept |
| ProjectRegistry.OverlappingRecoveriesEndReadyIff | apps/server/src/project-registry.ts:256-348 | Recoveries after such a crash that overlap each other in any way and run to their end: the record is at the ref without a transition, and the project is ready exactly unless the last call to set its state was one whose transition another had settled since it was read; ready in particular if no call was overtaken like that |
| ProjectRegistry.OvertakenMarksUnavailable | apps/server/src/project-registry.ts:256-293 | A call overtaken in that way marks the project unavailable with a transition mismatch, and changes nothing else |
| ProjectRegistry.OverlappingAdmitsEndUnavailable | apps/server/src/project-registry.ts:123-142 | A concrete run: two admits after an advance whose last store write failed; one finalizes, the other is overtaken, and the project ends unavailable although ref and record agree |
| ProjectRegistry.RecoveryStepsReach | apps/server/src/project-registry.ts:256-348 | The interleaved recovery steps, undisturbed, do what the one-shot recovery does, for every choice of steps that fail |
| ProjectRegistry.FailedRecoveryParks | apps/server/src/project-registry.ts:256-293 | In a run: a failed inspection, ref read, settling write or restoring write leaves the project unavailable with that fault, and keeps baseline, transition and ref |
| ProjectRegistry.RestoringLooksAgain | apps/server/src/project-registry.ts:295-307 | The last write of a recovery leaves the record alone if a transition has been stored meanwhile |
| ProjectRegistry.AdvanceStepsReach | apps/server/src/project-registry.ts:220-248 | The interleaved steps of an advance, undisturbed, leave the record and ref that the one-shot advance leaves, for every choice of failing writes and commands |
| ProjectRegistry.TransitionKeptIffRefUnknown | apps/server/src/project-registry.ts:335-348 | Recovery ends unavailable with transition and baseline kept exactly when the ref names neither end, and that blocks further advances |
| ProjectRegistry.OverlappingAdmitLosesBaseline | apps/server/src/project-registry.ts:123-142 | A concrete run: an admit that overlaps a live advance clears the transition after the swap and ends with the ref at next, the record at expected, ready and without a transition |
| ProjectRegistry.OverlappingAdmitClearsFirst | apps/server/src/project-registry.ts:123-142 | The same end when the admit clears the transition before the swap |
| ProjectRegistry.AgreementKeptIffHarmless | apps/server/src/project-registry.ts:319-432 | Exactly which steps of a live call keep record and ref in agreement |
| ProjectRegistry.DisagreementIsPermanent | apps/server/src/project-registry.ts:220-348 | Once record and ref have parted without a transition, no advance, recovery or crash brings them together |
| ProjectRegistry.ReportedSwapLosesBaseline | apps/server/src/project-registry.ts:230-247 | A concrete run: a swap that takes effect and is reported as failed; the advance clears its transition, and ref and record disagree |
| ProjectRegistry.ReportedSwapNeedsExpected | apps/server/src/git-client.ts:517-537 | A misreported swap moves the ref only from the expected commit, and nothing else that is stored |
| ProjectRegistry.ReportedSwapIsLostIff | apps/server/src/project-registry.ts:230-247 | After such a swap the publication is lost exactly when the write that clears the transition works |
| KeyedLock.AttemptLocks.Enter | apps/server/src/attempt-workspace-manager.ts:154-165 | Queues behind the last caller of the key; contended exactly when the key is in the map |
| KeyedLock.AttemptLocks.Resume | apps/server/src/attempt-workspace-manager.ts:165-170 | A waiter becomes the holder |
| KeyedLock.AttemptLocks.Release | apps/server/src/attempt-workspace-manager.ts:170-179 | The key leaves the map only if nobody queued behind |
| KeyedLock.LockIsExclusiveAndLeakFree | apps/server/src/attempt-workspace-manager.ts:154-179 | In every reachable state: at most one holder per key, a key in the map exactly while somebody holds or waits, counters equal to holders and waiters |
| KeyedLock.GrantsAreFifo | apps/server/src/contribution-integrator.ts:64-76 | Grants for one key follow the order of arrival, for the attempt lock and the integrator's queue alike |
| KeyedLock.NoKeyIsStuck | apps/server/src/contribution-integrator.ts:64-76 | While a key is in the map, its first live call holds it or can take it now |
| KeyedLock.EveryCallIsServed | apps/server/src/attempt-workspace-manager.ts:154-179 | From every reachable state all calls can be granted and released, and then no key, holder or waiter is left |
| TerminalPublication.ObservedIsPromised | apps/server/src/agent-service.ts:105-139 | What a reader sees as completed has the intent's own output, usage and time, its busy agent shows as ready with the run's thread and no error, and from then on it is promised |
| TerminalPublication.CompletionNeverUnhappens | apps/server/src/agent-service.ts:1105-1140 | From every reachable state in which a reader saw the run completed, every continuation with crashes, stray and failed writes keeps the promise in the durable record, and once recovery is done the run is completed with the same content, one message, and the agent ready with its thread |
| TerminalPublication.SeenStaysSeen | apps/server/src/agent-service.ts:105-139 | While the process lives and no leader closes over the run, a reader who saw the run completed keeps seeing it so |
| TerminalPublication.PromiseKept | apps/server/src/agent-service.ts:1105-1165 | Every step of the run, the log, the store and the restart keeps the promise |
| TerminalPublication.RunInv | apps/server/src/agent-service.ts:1105-1165 | Every reachable state: the record is completed exactly by its intent or has no message, the disk is what memory holds or the one write reported as failed, and the log fits the phase |
| TerminalPublication.OneMessagePerCompletion | apps/server/src/agent-service.ts:1132-1137 | In every reachable state a run has one assistant message exactly when it is completed, and never two |
| TerminalPublication.AgentFollowsItsRun | apps/server/src/agent-service.ts:1132-1163 | In every reachable state, in memory and on disk, the agent is untouched while the run is active, ready with its thread and no error when it completed, ready instead of busy when it was cancelled, and in error when it failed |
| TerminalPublication.PromiseNeedsReadableLog | apps/server/src/agent-service.ts:1112-1121 | A promised run is completed by a restart exactly when the log can be read (or the record was already durable); with an unreadable log it is cancelled |
| TerminalPublication.UnreadableLogCancelsSeenRun | apps/server/src/agent-service.ts:1112-1164 | A concrete run from the start: readers see it completed with its output, a restart cannot read the log, and the run ends cancelled without a message |
| TerminalPublication.RestartIsIdempotent | apps/server/src/agent-service.ts:1105-1110 | A further restart of a completed run changes nothing |
| RestartRecovery.RecoverHealing | apps/server/src/agent-service.ts:145-193 | Nodes in one of the eight unfinished states become cancelled, unfinished tournaments cancelled with reason `server_restarted`, declared candidates not started and running ones cancelled with that reason, everything else stays; the fence falls exactly with an unfinished tournament of its id |
| RestartRecovery.InFlightIsCancelled | apps/server/src/agent-service.ts:145-193 | The same of the specification: every record, in its stored states and reasons |
| RestartRecovery.HealingComesToRest | apps/server/src/agent-service.ts:145-193 | Nothing is left in flight: unfinished nodes and tournaments become cancelled, candidates not started or cancelled, with the restart reason; what had ended is kept, the fence falls exactly with an unfinished tournament, and recovering again changes nothing |
| RestartRecovery.Service.ReconcileIntents | apps/server/src/agent-service.ts:1105-1165 | Every run with an intent ends, completed exactly when its log ends in the intent's event; its agent is freed and it gets a message unless it has one |
| RestartRecovery.MatchingIffLogged | apps/server/src/agent-service.ts:1112-1121 | The intents that complete are exactly those whose log can be read and whose last terminal event is the intent's own, by kind, name, status and code |
| RestartRecovery.Service.StopGroup | apps/server/src/agent-service.ts:376-391 | Cancels the root and its direct interrupted children, and no other run |
| RestartRecovery.Service.RecoverInterrupted | apps/server/src/agent-service.ts:353-400 | Cancels exactly the groups that are as they were in the snapshot, and frees exactly the busy agents that owned a cancelled run |
| RestartRecovery.Service.Recover | apps/server/src/agent-service.ts:333-400 | The whole recovery as one function of the database, the logs and the store as somebody left it between the snapshot of the groups and their update |
| RestartRecovery.GroupsAreIndependent | apps/server/src/agent-service.ts:342-360 | Recovering one group never changes the fingerprint of another |
| RestartRecovery.OnlyUnchangedRunsAreStopped | apps/server/src/agent-service.ts:375-392 | Whatever was written since the snapshot, a run that changed or ended is not overwritten, and one that is cancelled has no repair work in flight |
| RestartRecovery.NoRunIsLeftIffShallow | apps/server/src/agent-service.ts:336-348 | On any store, recovery leaves no run queued or running exactly when interrupted runs are nested at most leader to worker |
| RestartRecovery.RestartEndsByFields | apps/server/src/agent-service.ts:333-400 | What a restart makes of each run, field by field: ended runs stay; intents complete with their content or are cancelled as a mismatch; interrupted roots and children are cancelled with the restart error and their repair work; deeper ones stay |
| RestartRecovery.ChangeKeepsGrounded | apps/server/src/agent-service.ts:1547-1576 | Messages, continuations, delegations, progress, deletion of an agent with its runs, and restarts keep every parent gone or a leader, and the parent of a leader gone or an ended run without parent |
| RestartRecovery.OneRestartEndsEveryRun | apps/server/src/agent-service.ts:333-400 | Whatever has been written since the store was empty, agents deleted with their runs included, one restart leaves no run queued or running, and a second changes nothing |
| RestartRecovery.EachRestartTakesTwoLevels | apps/server/src/agent-service.ts:336-348 | On any store, after n restarts exactly the interrupted runs nested deeper than 2n are still active |
| RestartRecovery.OwnParentIsNeverRecovered | apps/server/src/agent-service.ts:342-343 | On a store with a run that names itself as parent, which no write of the server makes, that run stays active |
| RestartRecovery.BusyAgentsOwnNothingRecovered | apps/server/src/agent-service.ts:394-399 | A busy agent that owned a recovered run is ready afterwards, and no owner of one is still busy |
| RestartRecovery.SecondRestartIsIdleIff | apps/server/src/agent-service.ts:333-400 | A second restart changes nothing exactly when no interrupted run is nested three or four deep |
| RestartRecovery.OneMessagePerRun | apps/server/src/agent-service.ts:1132-1137 | Messages are kept; each run completed by its intent ends with one, a second is never added, and no other run gets one |
| EventLog.RunLog.Append | apps/server/src/event-log.ts:485-521 | The new state of sequence, bytes, flags, buffer and queue, with the truncation marker in place of an event over the limit |
| EventLog.RunLog.Write | apps/server/src/event-log.ts:523-543 | The event enters buffer and queue, the oldest leaving a full buffer |
| EventLog.RunLog.Close | apps/server/src/event-log.ts:235-254 | Complete exactly when no append has failed once the queue is empty |
| EventLog.RunLog.ReopenForRecovery | apps/server/src/event-log.ts:274-280 | Only the close flags change |
| EventLog.RunLog.Read | apps/server/src/event-log.ts:282-308 | On every log: at most `limit` events, all later than the cursor and from buffer or file. While no append has failed, the next events after the cursor of a prefix of the whole log that holds at least the file, and the new cursor counts them |
| EventLog.ReadIsPage | apps/server/src/event-log.ts:282-308 | Reading the buffer is reading the whole log; reading the file is reading a prefix of it |
| EventLog.LogIsGapFree | apps/server/src/event-log.ts:485-543 | Without failed appends, through restarts and whatever the drafts: numbers are 1..n, the buffer is the last min(n, size) events, the byte count is that of the log; if no draft passes as the truncation marker, a marker is the last event |
| EventLog.OpenLogKeepsWhatFits | apps/server/src/event-log.ts:485-521 | Of any drafts given to an open log, however its queue drains, it holds exactly the first ones that fit the byte limit, field by field, and one marker for the rest, if any |
| EventLog.MarkerSilencesAfterRestart | apps/server/src/event-log.ts:113-182 | After a restart over a file with a marker, wherever it came from, nothing is ever logged again |
| EventLog.ForgedMarkerSilencesLog | apps/server/src/event-log.ts:113-182 | Any draft that passes as the marker is such an input: it is logged like any other, and every later event is lost from the next restart on |
| EventLog.PagingSeesEachEventOnce | apps/server/src/event-log.ts:282-308 | A reader who follows the cursor through any run of appends, drains and closes is handed one contiguous run of the log, each event once |
| EventLog.FailedAppendLeavesGap | apps/server/src/event-log.ts:528-540 | An append that fails and a later one that succeeds leave a gap in the file |
| EventLog.QueueKeepsFileNumberedIff | apps/server/src/event-log.ts:528-540 | For every outcome of the queued appends the file keeps its numbers exactly when no success follows a failure |
| EventLog.FileIsGapFreeIff | apps/server/src/event-log.ts:485-543 | Over every run with failing appends and restarts the file is gap-free exactly when no append reaches it after an earlier one of the same process failed |
| EventLog.RestartKeepsAllIffDrained | apps/server/src/event-log.ts:113-182 | Events shown to readers before they were written survive a crash exactly when the queue was empty |
| EventLog.ShownEventCanBeLost | apps/server/src/event-log.ts:282-308 | A concrete event that a reader is shown and that a crash takes back |
| EventLog.LastTerminalOfSuffix | apps/server/src/event-log.ts:256-272 | A terminal event found in the buffer is the last one of the file |
| EventLog.LastTerminalIff | apps/server/src/event-log.ts:264-272 | The last terminal event is the one behind which no other run event has ended |
| EventLog.ClosedTerminalIsDurable | apps/server/src/event-log.ts:256-272 | What the buffer shows as the closed terminal is the file's last terminal, before and after a restart |
| SessionClose.SeenIsHiddenIff | apps/server/src/event-log.ts:235-254 | A completion seen behind the close barrier is hidden by a step exactly when the step begins a close that waits for the member |
| SessionClose.SeenUntilClosedAgain | apps/server/src/event-log.ts:235-262 | Over any run without such a close it stays in sight |
| SessionClose.SeenAgainIff | apps/server/src/event-log.ts:235-262 | When the close has waited for every queue, the completion is seen again exactly when no append of any member waited for has failed |
| SessionClose.MemberRunsItsLog | apps/server/src/event-log.ts:235-254 | In every run of a session each member's log goes through a run of its own, with its drafts, its queue and the closes that wait for it |
| SessionClose.LeaderHidesChild | apps/server/src/event-log.ts:235-262 | A concrete session: a child's completion is seen, and its leader's close over a failed append of its own hides it |
| ContributionIntegrator.Integrator.Integrate | apps/server/src/contribution-integrator.ts:58-79 | A turn cancelled while it queued touches nothing; otherwise one of the outcomes of `IntegrateSerialized` |
| ContributionIntegrator.Integrator.IntegrateSerialized | apps/server/src/contribution-integrator.ts:86-197 | Settled means the pinned checkout stands at the returned head; integrated means gate and verification passed and no check saw a cancellation; with failing commands and outside writers too, and no foreign checkout is written to. With working Git, all outcomes are those of `Served`: integrated exactly when everything agreed, with the tree clean or as the verifier left it; conflicted and rolled back leave the old head and a clean tree, the first objection is the reason, and a cancellation after applying leaves the old head |
| ContributionIntegrator.Integrator.Restore | apps/server/src/contribution-integrator.ts:81-84 | Success means the pinned checkout is clean at the expected head; without faults it succeeds on the project's own checkout |
| ContributionIntegrator.IntegratedIsCleanIff | apps/server/src/contribution-integrator.ts:164-196 | An integrated checkout is clean exactly when the verifier, if there was one, left it clean |
| ContributionIntegrator.Integrator.HandleConflict | apps/server/src/contribution-integrator.ts:108-137 | Conflicted exactly when aborting restored the old head and a clean tree |
| ContributionIntegrator.Integrator.Judge | apps/server/src/contribution-integrator.ts:139-196 | The applied commit stays only past gate, verification and cancellation, and is gone in every other settled outcome |
| ContributionIntegrator.Integrator.GuardApplied | apps/server/src/contribution-integrator.ts:203-217 | A cancelled run rolls the checkout back before it throws |
| ContributionIntegrator.Integrator.Rollback | apps/server/src/contribution-integrator.ts:241-251 | Success means the pinned checkout is clean at the expected head; without faults it fails only on foreign authority |
| ContributionIntegrator.Integrator.AssertAuthority | apps/server/src/project-run-manager.ts:589-616 | Passes exactly for the pinned directory, repository, branch and, if given, head |
| ContributionIntegrator.Integrator.GateVerify | apps/server/src/structural-gate.ts:18-31 | Passes exactly for a clean tree at the applied head without whitespace errors, and names the first objection otherwise |
| ContributionIntegrator.VerificationAuthorisesIff | apps/server/src/types.ts:723-746 | A verification result authorises exactly when it is a passed, failure-free result about this contribution at this stage; it is a failure exactly when it is about it and says failed by gate or authority, or nothing; all else is malformed |
| ContributionIntegrator.OutcomesChain | apps/server/src/contribution-integrator.ts:58-79 | Over any sequence of attempts, restorations and outside writes, with failing commands: outcomes chain head to head; while nobody interferes with an attempt that integrates, the recorded head is the start with the integrated contributions on top, in order; while nobody interferes at all, the checkout stays pinned |
| ContributionIntegrator.StrandedHeadIsFrozen | apps/server/src/contribution-integrator.ts:93-104 | Without outside writers the head leaves the record only by a throw, after a stage that strands it, a failed command or an unfinished cherry-pick from earlier; then no attempt moves anything until a restoration brings it back |
| JsonStore.Store.Mutate | apps/server/src/store.ts:62-83 | A failed mutation changes neither memory nor, unless the rename took effect, the file; a successful one is in the file before it is shown |
| JsonStore.Store.Restart | apps/server/src/store.ts:41-56 | A restart shows the main file, creates a missing one with the empty database, and refuses one it does not know, leaving it as it is |
| JsonStore.StoreIsSerializable | apps/server/src/store.ts:58-83 | In every run the state shown is the fold, in call order, of exactly the calls whose rename took effect, and has been the content of the file |
| JsonStore.CallStepsReach | apps/server/src/store.ts:62-83 | The steps of one call, undisturbed, do to memory and file what `Mutate` does, and book it as kept exactly when mutation, temporary file and rename work |
| JsonStore.KeptIffRenamed | apps/server/src/store.ts:62-83 | In every run a call that is over is kept exactly when its rename took effect: it was reported to work, or a crash was the next thing to touch the file |
| JsonStore.KeptCallReturned | apps/server/src/store.ts:62-74 | A kept call is one whose mutation returned a value for the content it met |
| JsonStore.RunKeepsCalls | apps/server/src/store.ts:62-74 | What was kept stays kept, at its place in the order, through faults and crashes |
| JsonStore.RunQueuesCalls | apps/server/src/store.ts:62-74 | Every call of the run is queued, in order, and no other |
| JsonStore.CrashReloadsAPrefix | apps/server/src/store.ts:41-83 | A crash at any step reloads a fold of whole mutations: what was shown, or that with the one mutation whose rename had taken effect |
| EvolutionOutbox.MergeShape | apps/server/src/store.ts:183-211 | Succeeds exactly when shared ids agree in content (within the size limit); then at each id the combined entry, in order of first appearance |
| EvolutionOutbox.MergedEntryFields | apps/server/src/store.ts:203-208 | Of an entry in both lists the merge keeps a delivered one, the durable one first, and of two pending ones the durable one exactly if it carries an error; entries of one list are kept |
| EvolutionOutbox.MergeKeepsUnionAndDelivery | apps/server/src/store.ts:183-211 | Exactly the union of ids; a delivered entry stays delivered |
| EvolutionOutbox.MergeIdempotent | apps/server/src/store.ts:183-211 | Merging a list with itself changes nothing |
| EvolutionOutbox.MergeAssociative | apps/server/src/store.ts:183-211 | Both groupings give the same result whenever both succeed, with the exact condition under which each does: agreement of all three, and no intermediate list over the limit |
| EvolutionOutbox.GroupingMattersBeyondLimit | apps/server/src/orchestration/evolution/evolution-types.ts:353-361 | Lists on which one grouping fails and the other succeeds |
| Redactor.ScrubLoop | apps/server/src/redact.ts:82-88 | The loop over the literals computes the scrubbed text |
| Redactor.Walk | apps/server/src/redact.ts:90-104 | The tree walk computes the redacted tree |
| Redactor.NothingAppears | apps/server/src/redact.ts:82-88 | Masking one secret never creates an occurrence of another that lies nowhere over the mask, across the joins either |
| Redactor.LiteralGone | apps/server/src/redact.ts:82-88 | Masking one secret leaves no occurrence of it |
| Redactor.ScrubIsClean | apps/server/src/redact.ts:82-88 | After all secrets are masked none of them occurs |
| Redactor.RedactedTreeIsClean | apps/server/src/redact.ts:90-104 | No string value anywhere in a redacted tree contains a secret |
| Redactor.RedactTwice | apps/server/src/redact.ts:79-104 | Redacting twice equals redacting once |
| Redactor.ScrubbedIsCleanIff | apps/server/src/redact.ts:82-88 | For one secret: no scrubbed text ever holds it exactly when it nowhere lies over the mask |
| Redactor.SecretsAreUsable | apps/server/src/redact.ts:79-80 | Dropping the blank secrets leaves usable ones, if none lies over the mask |
| Redactor.StarFreeIsApart | apps/server/src/redact.ts:82-88 | A secret without `*` never lies over the mask |
| Redactor.LooksSecretIff | apps/server/src/redact.ts:33-42 | A key is secret exactly when no longest run of its letters and digits is `tokens`, in any case, and one is a listed word, or both `api` and `key` occur |
| Redactor.CaseIsIgnored | apps/server/src/redact.ts:33-42 | A key and the key in small letters are treated alike |
| Redactor.LowerIsWithoutCase | apps/server/src/redact.ts:33-42 | Words are made of the ten digits and the letters, and capitals become their small letters |
| Redactor.StarredSecretCanReappear | apps/server/src/redact.ts:82-88 | A secret with the mask character can be re-created by masking |
| Truncation.ParseOfDecimal | apps/server/src/redact.ts:19-31 | Printing and parsing a count round-trips |
| Truncation.HeadRecognised | apps/server/src/redact.ts:19-23 | A shortened text is recognised as such |
| Truncation.RecognisedIff | apps/server/src/redact.ts:19-31 | Exactly which texts pass as cut: those with a number above the bound, in the marker's words, between ends of the kept lengths |
| Truncation.TruncateHeadTwice | apps/server/src/redact.ts:44-50 | Shortening to the head twice equals once, for every text |
| Truncation.TruncateHeadTailTwice | apps/server/src/redact.ts:52-70 | Shortening to head and tail twice equals once, for every text |
| Truncation.HeadIsBoundedIff | apps/server/src/redact.ts:44-50 | The shortened text is at most `limit` characters and a marker long, except exactly when the text ends in a recognised marker with more digits than its own length has |
| Truncation.BothEndsAreBoundedIff | apps/server/src/redact.ts:57-70 | The same for the text that keeps both ends |
| Truncation.ForgedMarkerIsUnbounded | apps/server/src/redact.ts:19-23 | Texts of any length pass unshortened when they end in a marker with a large enough number |
| Truncation.ForgedMiddleIsUnbounded | apps/server/src/redact.ts:25-31 | The same for the marker that stands in the middle |
| RunEvents.TruncateAttributes | apps/server/src/run-events.ts:93-121 | The loop keeps a prefix-greedy choice of shortened attributes, within the cap |
| RunEvents.CappedKeepsAll | apps/server/src/run-events.ts:111-120 | The greedy cap keeps every attribute of a list it produced itself |
| RunEvents.AttributesTwice | apps/server/src/run-events.ts:93-121 | Redacting and capping attributes twice equals once |
| RunEvents.MarkerIsInert | apps/server/src/run-events.ts:130-203 | A secret that reaches no marker is not created by putting a marker between clean texts |
| RunEvents.SanitizeTwice | apps/server/src/run-events.ts:130-203 | Sanitizing twice equals sanitizing once, for every draft and any secrets that neither the mask nor a marker that can be printed can become part of |
| SafeDrafts.SanitizedIsFit | apps/server/src/run-events.ts:130-203 | For secrets that neither mask nor marker can become part of: every text of a sanitized event is free of secrets and within its bound or cut, values under secret keys are masked at every depth, and fields, counts and flags are those of the draft |
| SafeDrafts.FitDraftIsKept | apps/server/src/run-events.ts:130-203 | A draft that is like that already, with attributes within their cap, is left exactly as it is |
| MarkerSecrets.UndisturbedSettles | apps/server/src/redact.ts:44-70 | A text cut once is left as it is by a second pass, unless the marker for some length disturbs the secret |
| MarkerSecrets.SharedTextBreaksSecondPass | apps/server/src/run-events.ts:130-203 | For every secret that a marker disturbs there is a draft that the second pass changes |
| MarkerSecrets.SanitizeTwiceIff | apps/server/src/run-events.ts:130-203 | For one secret that lies nowhere over the mask: sanitizing every draft twice equals once exactly when no marker disturbs it, that is, when it neither lies over a marker's edge nor lies inside a marker so that masking changes the stated length |
| MarkerSecrets.MarkerStartDisturbs | apps/server/src/redact.ts:44-50 | A secret that ends as a marker begins is disturbed |
| TrajectoryLog.Trajectory.Render | apps/server/src/trajectory-log.ts:84-105 | The new counters, held lines and printed lines |
| TrajectoryLog.Trajectory.Hold | apps/server/src/trajectory-log.ts:107-111 | Lines are printed with no call open, and held otherwise |
| TrajectoryLog.Trajectory.FlushHeld | apps/server/src/trajectory-log.ts:113-118 | Everything held is printed, and nothing stays held |
| TrajectoryLog.ReplayTrajectoryState | apps/server/src/trajectory-log.ts:59-82 | The loop rebuilds the counters, with nothing held |
| TrajectoryLog.DerivedLinesAreConserved | apps/server/src/trajectory-log.ts:84-118 | For every event sequence: derived lines printed, then those held, are all derived lines in arrival order; nothing is held with no call open |
| TrajectoryLog.DerivedLinesArePlaced | apps/server/src/trajectory-log.ts:134-201 | Derived lines are printed only with no call open, right after a response block, or at run end, which leaves nothing held |
| TrajectoryLog.OpenlyPrinted | apps/server/src/trajectory-log.ts:99-105 | With no call open a command prints its text, and any other event prints it once it has ended |
| TrajectoryLog.ReplayMatchesRendering | apps/server/src/trajectory-log.ts:59-82 | Replay gives the call count, open calls and token totals of rendering; the command counter too exactly when each command has as many start as end events |
| TrajectoryLog.TrailerTellsTotals | apps/server/src/trajectory-log.ts:84-105 | The closing line has the number of calls and commands started, the calls started and not ended since, and the token sums of all replies |
| TrajectoryLog.ReplayCounts | apps/server/src/trajectory-log.ts:59-82 | Replay sums calls started, commands ended and the tokens of replies |
| TrajectoryLog.RepeatedProgressIsCountedTwice | apps/server/src/trajectory-log.ts:59-105 | A concrete log: a command that reports progress twice is counted twice by rendering and once by replay |
| LineageTree.Adjacency | apps/web/src/EvolutionPanel.tsx:139-148 | The maps hold the edges of each node, in input order |
| LineageTree.Walk.Push | apps/web/src/EvolutionPanel.tsx:150-156 | One row is added for an unlisted node, and the listing stays lawful |
| LineageTree.Walk.Children | apps/web/src/EvolutionPanel.tsx:157-163 | Exactly the node's outgoing edges, in order of their targets |
| LineageTree.Walk.Visit | apps/web/src/EvolutionPanel.tsx:150-165 | Lists exactly the unlisted nodes reachable from here, as one subtree in depth-first order |
| LineageTree.OrderedTree | apps/web/src/EvolutionPanel.tsx:139-170 | On every graph with distinct ids: terminates, lists every node once; each row's edge comes from an earlier row and its depth is min(parent + 1, 4), rows without one are at depth 0; depth-first, siblings and trees in order, roots first |
| LineageTree.ListingByFields | apps/web/src/EvolutionPanel.tsx:139-170 | The same in the fields that were given: siblings by time, id, kind and edge id; trees by time and id, those that no given edge leads to first; each depth one more than its parent and at most 4 |

## Left out

- Git and file-system internals: heads, refs, cleanliness, renames and directory syncs are abstract state; SHA-256 hashes are injective tags and random identifiers are new numbers.
- Temporary sidecar files: only their failure is modelled; a crash can leave strays under unique names, which nothing reads.
- Replacement of the attempts directory inside `create`: the parent may differ from the one recorded in a sidecar, but does not change while `create` runs; in a recovery anybody may change anything up to the final fence.
- `create`'s checks of identifier syntax and of the fields that only repair candidates have, and `compensateUnpersisted`, `importContribution` and `assertExactOwner`, which reuse the checks modelled here.
- Creation, opening, renaming and deletion of projects, and every field of the project record besides state, error, baseline and transition.
- Recovery of a run's project record after a restart (`recoverProjectAfterRestart`), and the cancellation events written to the logs of the recovered groups.
- RestartRecovery.Service.Recover: nobody else writes while the intents are reconciled, which happens before the server answers requests.
- Every other normalisation done by the store, and the schema checks of outbox entries: entries are taken as well formed.
- Timestamps, except where an intent carries the completion time; error message text; model usage beyond one number.
- The event log's manifest, sidecars, archive, sessions and readable projection; a torn last line of the file.
- TrajectoryLog.Trajectory.Render: what the formatters print for one event is an input; elapsed time and line layout are not modelled.
- Stores written before the rules for parents of runs existed; `RestartRecovery.EachRestartTakesTwoLevels` says what recovery does on them.
- EventLog.RunLog.Read: the file is read at one moment during the call; a negative cursor is not modelled.
- RunEvents.SanitizeTwice: the `usage` field and object keys that contain secrets are left alone by the code and not modelled as text.
- Text is a sequence of characters; code units, case folding and locale comparison are not modelled (`localeCompare` is a numeric rank).
- MarkerSecrets.SanitizeTwiceIff: for one secret; for several `RunEvents.SanitizeTwice` gives a sufficient condition, since one secret's mask may remove another's occurrence.
- LockedAttempts.AtMostOneOverlappingCreateReturns: an operation takes effect when its call releases the lock; only the worker acts beside it.
- LineageTree.OrderedTree: node ids are distinct, as the server guarantees; the rendering of rows.
- ContributionIntegrator.Integrator.Integrate: Git queries do not fail, commands do; nobody writes between an authority check and the Git command right behind it; the queue in front of it is the one in `KeyedLock`.
- HTTP, processes, containers, the orchestrator, the scheduler, pricing, configuration and all other rendering, which would add only easy members or whose behaviour lies outside these files.
