# Verified model of Pathway's connectors

This project models how Pathway moves data from external sources into its engine, and proves the guarantees
that the code of the connectors relies on.

* **Synchronization groups** (`SyncGroup*`, `Masks`, `TimeBarrier`, `ConnectorGroups`). Several readers share a group
  that decides whose next value may be sent, who waits and who is woken. Each public method of the group runs under
  one lock, so it is one atomic step; runs are arbitrary sequences of such steps. `SyncGroup` specifies the steps,
  `SyncGroupThreshold` says what a recalculation yields, `SyncGroupRuns` holds the invariant of all reachable states
  and `SyncGroupRegistration`, `SyncGroupTheorems`, `SyncGroupApproval`, `SyncGroupSkew` and `SyncGroupExample` hold
  the guarantees. `TimeBarrier` is the forced-time barrier and `ForcedAdvance` joins it with the connectors.
  `ConnectorGroups` is the mutable group, with its loops and 64-bit worker masks, refining the specification.
* **Connectors** (`Connector*`, `StartupBatch`, `Connectors`, `Backlog`, `UpsertSessions`). A connector gives every
  row a timestamp, decides when time advances, logs rows and frontiers, replays logs and holds back when too much is
  in flight. `ConnectorModel` is the transition system. `ConnectorTime`, `ConnectorCommits`, `ConnectorBacklog`,
  `ConnectorPersistence`, `ConnectorFrontier`, `ConnectorReplay`, `ConnectorRecovery` and `StartupBatch` are its
  theorems, `ConnectorExamples` holds runs at which their conditions fail, and `Connectors` is the mutable connector
  with the poller loop.
* **The POSIX-like reader** (`Tokenizer`, `PosixReader`, `PosixProgress`, `PosixUpdates`, `PosixLikeReaders`). Objects
  are read, re-read when they change and undone when they disappear, with the help of a cache. `AtomicUpdates` joins
  reader and connector.
* **Batched UDFs** (`BatchApply`) and the **cross-process locks** of the integration tests (`GateLock`,
  `ConcurrencySlots`).

Everything the code reads from outside is a parameter: the clock is any even number, the group's forced timestamp any
even number or none, the output frontier any time not past the session's own, the channel a sequence of entries, the
scanner's answers any lists that obey its contract (reads of uncached objects, updates and deletions of cached ones,
each path once), and the order of a hash map arbitrary. The locks of the operating system grant exactly what `flock`
documents. Values of a group are unbounded integers and `None` is below every value.

## Notes on the source

* The introduction of `src/connectors/synchronization.rs` (lines 51-68) calls the treatment of several workers per
  source best effort. `SyncGroupExample.HotPathIsBestEffort` shows what that means: a second worker may propose less than
  the source's outstanding value, and then the shortcut approves what a recalculation would refuse. The refinement holds
  for all runs in which no proposal goes below the outstanding one of its source.
* The bound on the skew holds against what was approved before: a value approved later may lie above an earlier one by
  more than the allowed difference when another source has already proposed it.
* A row is logged before its number of columns is checked (`src/connectors/mod.rs`, lines 1034-1056). Hence recording and
  replaying give the same rows if and only if no malformed row was logged (`LiveRowsReplay`, `MalformedRowIsReplayed`).
* A time advancement inside a message carries the frontier before that message although rows of it may already be logged.
  `RecoveryExactlyOnce` shows that this is the only way in which a restart repeats rows. The parsers of the repository
  return a time advancement as the only entry of a message, and a forced one is put first, so with them it does not happen.
* In a connector group one read may be sent as several messages with one offset (`src/connectors/mod.rs`, lines 426-431).
  A frontier logged between them already reaches the later ones (`SplitReadRunsAhead`); `FrontierNeverAhead` shows that it
  runs ahead of the data exactly then.
* Registering a source a second time with a higher priority leaves `max_active_priority` above every active source, as
  `RegistrationReachesInit` states. This is harmless: every theorem covers such groups, and `CacheBecomesExact` shows that
  the first step of the group repairs the cache.
* After an update whose object cannot be read again `commit_allowed` stays false, so the auto-commit timer does nothing until
  another object is finished (`CommitsFollowReader`).

## Model

| member | source | states |
|---|---|---|
| `SyncGroupThreshold.MaxLrvIs` | src/connectors/synchronization.rs:562-569 | the value a recalculation may not contradict is the maximum of all reported values, idle sources included |
| `SyncGroupThreshold.MaxActiveIs` | src/connectors/synchronization.rs:570-573 | the recomputed priority is the maximum over the active sources and is reached by one of them |
| `SyncGroupThreshold.LeastBoundIs` | src/connectors/synchronization.rs:575-595 | the new minimum is the least of the active sources' bounds and is reached by one of them |
| `SyncGroupApproval.ThresholdIs` | src/connectors/synchronization.rs:549-662 | the threshold value by value: it is set if and only if every active source was heard from; `v` is at or below it if and only if each active source reported at least `v` minus the window or proposed at least `v`, or some source reported at least `v`, or nobody could pass otherwise and every active source of the top priority proposed at least `v` |
| `SyncGroupThreshold.LeastProposalIs` | src/connectors/synchronization.rs:636-660 | the forced raise uses the least proposal of the top-priority active sources |
| `SyncGroupThreshold.KeepIs` | src/connectors/synchronization.rs:525-547 | a recalculation keeps exactly the queued requests it does not release |
| `SyncGroupThreshold.LeastQueuedIs` | src/connectors/synchronization.rs:221-232 | after a report the proposal of a source is the least value it still has queued, unset exactly when it has none |
| `SyncGroupThreshold.FreshDefined` | src/connectors/synchronization.rs:549-600 | a recalculation completes if and only if some source is active and every active source has proposed or reported |
| `SyncGroupThreshold.FreshAboveReported` | src/connectors/synchronization.rs:601-610 | the threshold is never below a reported value of any source, active or idle |
| `SyncGroupThreshold.FreshFreesSomeone` | src/connectors/synchronization.rs:612-662 | when every active source has a proposal outstanding, the threshold lets at least one of them pass under the priority rules |
| `SyncGroupThreshold.EqualPrioritiesNeverForce` | src/connectors/synchronization.rs:612-662 | with equal priorities and a non-negative window the forced raise never changes the threshold |
| `SyncGroupThreshold.FirstProposalRaisesFresh` | src/connectors/synchronization.rs:549-662 | a first proposal of an active source never lowers the threshold |
| `SyncGroupRuns.UpdateInv` | src/connectors/synchronization.rs:549-671 | a recalculation establishes the whole group invariant: sound priority cache, no releasable request queued, somebody unblocked |
| `SyncGroupRuns.ProposeInv` | src/connectors/synchronization.rs:435-501 | a request for approval, approved or queued, keeps the group invariant |
| `SyncGroupRuns.ReportInv` | src/connectors/synchronization.rs:739-749 | any list of reports followed by one recalculation keeps the group invariant |
| `SyncGroupRuns.GoIdleInv` | src/connectors/synchronization.rs:362-381 | a worker going idle keeps the group invariant |
| `SyncGroupRuns.ShortcutIsScan` | src/connectors/synchronization.rs:446-489 | comparing with the cached priority decides the hierarchy question exactly as the full scan does |
| `SyncGroupRuns.ActivatedMax` | src/connectors/synchronization.rs:446-453 | raising the cached priority by the proposing source's own keeps it equal to the maximum |
| `SyncGroupRegistration.RegistrationReachesInit` | src/connectors/synchronization.rs:300-320 | any sequence of registrations leads to an initial state of the runs, and its cached priority is exact if and only if no source was registered again with a priority above those of all sources |
| `SyncGroupRegistration.WorkersCounted` | src/connectors/synchronization.rs:208-219 | a source has as many workers as it was registered times |
| `SyncGroupRegistration.WorkerIdsDiffer` | src/connectors/synchronization.rs:300-320 | the workers of one source get different ids, all below the number of its workers |
| `SyncGroupTheorems.ReachableInv` | src/connectors/synchronization.rs:288-671 | the invariant holds in every reachable state, and every outstanding proposal is backed by a queued, woken or approved request |
| `SyncGroupTheorems.NoDeadlock` | src/connectors/synchronization.rs:435-671 | in no reachable state is somebody queued while nobody can move |
| `SyncGroupTheorems.QueuedForAReason` | src/connectors/synchronization.rs:491-547 | no lost wake-up: a queued request is above the threshold or behind a higher-priority source, and its source is active with a proposal set to at most the value of the request |
| `SyncGroupTheorems.WokenRetryApproved` | src/connectors/synchronization.rs:525-547 | a request woken by any step is approved when it is retried next, already by the shortcut |
| `SyncGroupTheorems.ApprovalRespectsHierarchy` | src/connectors/synchronization.rs:403-489 | every approval, on either path, is within the threshold and finds all higher-priority active sources at or past the value |
| `SyncGroupTheorems.CacheBecomesExact` | src/connectors/synchronization.rs:446-453 | whatever registration left in the cache, it is exact from the first step of the group on |
| `SyncGroupTheorems.CacheAndThresholdExact` | src/connectors/synchronization.rs:562-610 | in every reachable state the cached priority is not below any active source, once the group took a step it is that of an active source, and a completed recalculation covers every reported value |
| `SyncGroupTheorems.MonotoneRunsAreConservative` | src/connectors/synchronization.rs:549-662 | when proposals do not go below the outstanding one, the stored threshold never exceeds a fresh recalculation |
| `SyncGroupTheorems.HotPathRefinesSlowPath` | src/connectors/synchronization.rs:455-489 | when proposals do not go below the outstanding one, whatever the shortcut approves a full recalculation approves too |
| `SyncGroupApproval.LetThroughIsApproved` | src/connectors/synchronization.rs:435-501 | in every run a value that the sources let through in this sense, and that overtakes no active source of higher priority, is approved |
| `SyncGroupApproval.ApprovedIff` | src/connectors/synchronization.rs:435-501 | when proposals do not go below the outstanding one, a value is approved if and only if the sources let it through and it overtakes no active source of higher priority |
| `SyncGroupApproval.WithinWindowIsApproved` | src/connectors/synchronization.rs:575-578 | with equal priorities a value at most the window above what every active source reported is approved |
| `SyncGroupApproval.ReportKeepsGreatest` | src/connectors/synchronization.rs:383-399 | reports raise the reported value of each source to the greatest of its old one and those reported for it |
| `SyncGroupApproval.ReportedIsGreatest` | src/connectors/synchronization.rs:383-399 | in every run the reported value of a source is the greatest one reported for it, unset if and only if there is none |
| `SyncGroupApproval.IdleIff` | src/connectors/synchronization.rs:362-381 | in every run a source is idle if and only if it has nothing proposed and each of its workers went idle and proposed nothing since |
| `SyncGroupExample.HotPathIsBestEffort` | src/connectors/synchronization.rs:51-68 | without that assumption the refinement fails: a reachable state of two workers where only the shortcut approves |
| `SyncGroupSkew.SteadyRunsKeepSkew` | src/connectors/synchronization.rs:383-671 | with equal priorities, no idling and non-decreasing proposals, every approved value stays within the window of what each source has already proposed |
| `SyncGroupSkew.BoundedSkew` | src/connectors/synchronization.rs:383-671 | under the same conditions no value is approved that lies more than the allowed difference below one approved earlier |
| `Masks.OrAdds` | src/connectors/synchronization.rs:244-249 | setting a bit of a 64-bit worker mask adds exactly that worker |
| `Masks.AndNotRemoves` | src/connectors/synchronization.rs:250-253 | clearing a bit removes exactly that worker |
| `Masks.PlusAdds` | src/connectors/synchronization.rs:208-219 | adding the bit of a new worker stays within 64 bits and adds exactly that worker |
| `Masks.MaskEquality` | src/connectors/synchronization.rs:254-273 | two masks are equal if and only if they stand for the same workers |
| `TimeBarrier.RoundState` | src/connectors/synchronization.rs:335-360 | after any sequence of reports the barrier holds exactly the workers that reported in the latest round |
| `TimeBarrier.BarrierAgreement` | src/connectors/synchronization.rs:335-360 | when the forced timestamp is cleared, every worker of every source last reported that same timestamp |
| `TimeBarrier.AskedExactlyTheMissing` | src/connectors/synchronization.rs:322-333 | while it is set, exactly the workers that have not reported it are asked to advance, and to that timestamp |
| `ForcedAdvance.AskedReportsForced` | src/connectors/mod.rs:294-312 | a worker that is asked for a time later than its own advances to it and reports it, so no other round is opened |
| `ForcedAdvance.RoundCloses` | src/connectors/mod.rs:281-315 | in whatever order the asked workers advance and whatever their clocks say, the round stays open for its timestamp until every worker has advanced, and closes exactly then |
| `ForcedAdvance.ForcedMessage` | src/connectors/mod.rs:920-924 | a message received while the group forces a later time first moves the connector there, and its rows are fed at that time |
| `ConnectorGroups.TrackedSource.RegisterNewReaderWorker` | src/connectors/synchronization.rs:208-219 | the full mask always stands for the registered workers |
| `ConnectorGroups.TrackedSource.IsIdle` | src/connectors/synchronization.rs:254-257 | comparing masks decides idleness of the set of workers |
| `ConnectorGroups.TrackedSource.MarkCompletedForceAdvancement` | src/connectors/synchronization.rs:267-269 | marking a worker adds it to the workers that are done and changes nothing else |
| `ConnectorGroups.TrackedSource.ForceAdvancementDoneInAllSources` | src/connectors/synchronization.rs:271-273 | the mask comparison holds exactly when all registered workers are done |
| `ConnectorGroups.HigherPrioritizedSourceIsBehind` | src/connectors/synchronization.rs:403-421 | the loop finds a lagging higher-priority active source exactly when there is one |
| `ConnectorGroups.ScanSources` | src/connectors/synchronization.rs:549-595 | one pass computes the least bound, the greatest reported value, the top active priority and whether all have proposed |
| `ConnectorGroups.HasProposedValueInRange` | src/connectors/synchronization.rs:612-634 | the loop decides whether some proposal could pass |
| `ConnectorGroups.MinNextProposedValue` | src/connectors/synchronization.rs:636-660 | the loop finds the least proposal of one priority class |
| `ConnectorGroups.ComputeThreshold` | src/connectors/synchronization.rs:549-662 | the three loops together compute the specified threshold |
| `ConnectorGroups.WakeWaitingSources` | src/connectors/synchronization.rs:525-547 | kept and woken requests together are the queue, each as often as before, and only releasable ones are woken |
| `ConnectorGroups.LeastWaiting` | src/connectors/synchronization.rs:221-232 | the loop finds the least queued value of a source |
| `ConnectorGroups.ConnectorGroup.constructor` | src/connectors/synchronization.rs:288-298 | a new group is empty and has no threshold |
| `ConnectorGroups.ConnectorGroup.RegisterNewSource` | src/connectors/synchronization.rs:300-320 | registration is refused exactly when the source already has 64 workers, and then changes nothing; otherwise it refines the specified step |
| `ConnectorGroups.ConnectorGroup.UpdateMaxPossibleValue` | src/connectors/synchronization.rs:549-671 | the recalculation refines the specified step and loses no queued request |
| `ConnectorGroups.ConnectorGroup.CanEntryBeSent` | src/connectors/synchronization.rs:435-501 | state and answer refine the specified step on both paths; the time barrier is untouched |
| `ConnectorGroups.ConnectorGroup.ReportEntrySent` | src/connectors/synchronization.rs:383-399 | a report refines the specified step |
| `ConnectorGroups.ConnectorGroup.ReportEntriesSent` | src/connectors/synchronization.rs:739-749 | the loop of reports and the one recalculation refine the specified step |
| `ConnectorGroups.ConnectorGroup.ReportSourceIsIdle` | src/connectors/synchronization.rs:362-381 | going idle refines the specified step and tells whether the worker was active before |
| `ConnectorGroups.ConnectorGroup.ForcedTimeAdvancementForSource` | src/connectors/synchronization.rs:322-333 | the answer is the specified one for the barrier |
| `ConnectorGroups.ConnectorGroup.ReportTimeAdvancement` | src/connectors/synchronization.rs:335-360 | mask updates refine the barrier over sets of workers and leave the rest of the group alone |
| `Backlog.OnEventOrdered` | src/connectors/backlog.rs:40-46 | events in non-decreasing time keep the groups strictly ordered, and the last group is the time of the event |
| `Backlog.OnEventAdds` | src/connectors/backlog.rs:40-46 | an event adds its timestamp once to the multiset in flight |
| `Backlog.AdvanceKeepsPending` | src/connectors/backlog.rs:56-64 | after advancing, exactly the events at or past the probe frontier remain, each as often as before |
| `Backlog.TotalIsCount` | src/connectors/backlog.rs:48-50 | the sum of group sizes is the number of events in flight |
| `Backlog.AdvanceKeepsLast` | src/connectors/backlog.rs:52-64 | advancing keeps the last timestamp with data unless the backlog becomes empty |
| `Backlog.BacklogTracker.OnEventAt` | src/connectors/backlog.rs:40-46 | the deque and the counter refine the multiset of events in flight |
| `Backlog.BacklogTracker.BacklogSize` | src/connectors/backlog.rs:48-50 | the counter is the number of events in flight |
| `Backlog.BacklogTracker.Advance` | src/connectors/backlog.rs:56-64 | the loop drops exactly the events the probe has passed, and the counter never underflows |
| `ConnectorTime.NextTimeProgress` | src/connectors/mod.rs:281-315 | the new time is even, not earlier, and strictly later when the closed minibatch holds data, with or without a forced timestamp |
| `ForcedAdvance.TimeLands` | src/connectors/mod.rs:281-315 | time lands at a later forced timestamp; else at a later target; else two further if the minibatch holds data; else where it was |
| `ForcedAdvance.AskedTimeIff` | src/connectors/mod.rs:294-304 | time lands at a forced timestamp if and only if that is later, or is the current one and nothing else moves time |
| `ConnectorTime.ReachableTime` | src/connectors/mod.rs:281-315 | in every reachable state time is even, equals the session's time, bounds the backlog and every row fed, and the minibatch check tells exactly whether a row was fed at the current time |
| `ConnectorTime.TimeNeverGoesBack` | src/connectors/mod.rs:281-315 | no step of any run moves time back, so the session's assertion never fails |
| `ConnectorTime.CommitsSeparateRows` | src/connectors/mod.rs:1057-1070 | rows on either side of a time advancement never share a timestamp |
| `ConnectorTime.YieldCannotDeadlock` | src/connectors/mod.rs:738-759 | after yielding on a full backlog time is past every row of it, so an output that catches up drains it completely |
| `ConnectorBacklog.BacklogIsPending` | src/connectors/mod.rs:738-759 | in every run the backlog holds for each time exactly the rows read in real time that were fed at it, until the output is seen past that time, and none of them from then on |
| `ConnectorCommits.FinishedSourceCommits` | src/connectors/mod.rs:888-904 | the end of an object commits if and only if that is forced, or it is possible, the clock has moved on and the start-up batch is not open |
| `ConnectorCommits.TimerCommits` | src/connectors/mod.rs:721-736 | the timer commits if and only if the replay is over and commits are allowed, and otherwise does nothing |
| `ConnectorCommits.YieldCommits` | src/connectors/mod.rs:741-759 | a full backlog commits if and only if the minibatch holds data, and otherwise does nothing |
| `ConnectorCommits.CommitsAllowedIff` | src/connectors/mod.rs:888-907 | in every run commits are allowed if and only if the last object to end allowed them and none that forbids them was opened since |
| `ConnectorCommits.RowFedIff` | src/connectors/mod.rs:1034-1056 | a row is fed and counted if and only if it has the declared shape, and is logged in any case |
| `ConnectorCommits.FinishedClosesLog` | src/connectors/mod.rs:770-778 | the end of the source closes the log with a time later than every row fed |
| `ConnectorPersistence.ReachableLog` | src/connectors/mod.rs:915-986 | in every reachable state each logged frontier is backed by rows logged before it |
| `ConnectorFrontier.ReachedIff` | src/persistence/frontier.rs:36-38 | the frontier of some messages reaches exactly those and the further messages of the reads they belong to |
| `ConnectorFrontier.FrontierNeverAhead` | src/connectors/mod.rs:915-932 | rows of messages handled before a logged advancement, the final one included, are logged before it; its frontier reaches no other message if and only if no read is split at that step |
| `ConnectorFrontier.ReachedIsLogged` | src/connectors/mod.rs:770-778 | with one message per read, every offset that a logged frontier reaches had its rows logged earlier |
| `ConnectorExamples.SplitReadRunsAhead` | src/connectors/mod.rs:426-431 | a read split into two messages of a group with a commit between them: the logged frontier reaches the second message, whose row is not logged |
| `ConnectorPersistence.CommitBetweenBatchesIsExact` | src/connectors/mod.rs:1057-1081 | an advancement logged outside a batch comes with exactly the rows its frontier covers |
| `ConnectorRecovery.RunFeeds` | src/connectors/mod.rs:998-1084 | which rows are fed, and in which order, depends on the entries received only; timers, probes, yields and commits do not matter |
| `ConnectorRecovery.RecoveryFeeds` | src/connectors/mod.rs:941-986 | a restart from any logged advancement feeds every row, and again exactly the rows that precede that advancement inside its own message |
| `ConnectorRecovery.RecoveryExists` | src/connectors/mod.rs:317-355 | a restart from any logged advancement is possible without a failed assertion |
| `ConnectorRecovery.RecoveryExactlyOnce` | src/connectors/mod.rs:915-986 | wherever a run is cut off and however the restarted connector interleaves, all rows are fed exactly once and in order if and only if no message has a row before a time advancement |
| `ConnectorExamples.RowBeforeCommitIsRepeated` | src/connectors/mod.rs:1034-1081 | a run with a row before a time advancement in one message, from which a restart repeats the row |
| `ConnectorReplay.RewindOne` | src/connectors/mod.rs:335-352 | the inner loop sends every row, and the time advancements that the mode forwards, in order, and counts the rows |
| `ConnectorReplay.RewindFromDiskSnapshot` | src/connectors/mod.rs:317-355 | the snapshots of all earlier workers are sent one after the other, each as above |
| `ConnectorReplay.SpeedrunForwardsAll` | src/connectors/mod.rs:168-186 | a speedrun forwards the whole log |
| `ConnectorReplay.ReplayRun` | src/connectors/mod.rs:784-794 | any log whose times do not go back can be replayed without a failed assertion |
| `ConnectorReplay.ReplayAnyRun` | src/connectors/mod.rs:784-794 | every run that receives a log, with timers, probes and yields anywhere among it, feeds the rows in order at the recorded times; the times of the log then do not go back |
| `ConnectorReplay.RecordingReplays` | src/connectors/mod.rs:941-967 | the log of a run can be replayed if and only if the log it started from can and that one did not get past the time of the sentinel |
| `ConnectorReplay.LiveRowsReplay` | src/connectors/mod.rs:998-1084 | after the rows of earlier runs, every speedrun feeds the rows read by the recorded run in the same order at the same timestamps if and only if none of them was malformed |
| `ConnectorReplay.RecordReplayRoundTrip` | src/connectors/mod.rs:168-186 | a speedrun feeds all that the recorded run fed, at the same timestamps, if and only if no malformed row was logged and that run had replayed the earlier rows at their recorded times |
| `ConnectorExamples.MalformedRowIsReplayed` | src/connectors/mod.rs:1039-1055 | a run that logs a malformed row without feeding it, and whose replay feeds it |
| `ConnectorModel.ProcessAllKeeps` | src/connectors/mod.rs:998-1084 | processing entries changes time, backlog, log and session only, and never moves time back |
| `Connectors.RetainData` | src/connectors/mod.rs:916-918 | before the end of the replay exactly the time advancements are dropped, every other entry is kept as often as it occurs |
| `Connectors.Connector.constructor` | src/connectors/mod.rs:237-266 | a new connector is in the initial state of the model |
| `Connectors.Connector.AdvanceTo` | src/connectors/mod.rs:281-315 | the branches and the session's assertion refine the specified time step |
| `Connectors.Connector.OnParsedData` | src/connectors/mod.rs:998-1084 | the loop refines the specified processing of all entries |
| `Connectors.Connector.HandleInputEntry` | src/connectors/mod.rs:876-988 | every kind of entry refines the specified step |
| `Connectors.Connector.BeginPoll` | src/connectors/mod.rs:721-738 | a poll begins with the due auto-commit and the probe, and nothing else |
| `Connectors.Connector.YieldIfFull` | src/connectors/mod.rs:741-759 | the poller yields exactly when commits are allowed and the backlog has reached its limit |
| `Connectors.Connector.Poll` | src/connectors/mod.rs:704-868 | a poll is a legal run of the model over a prefix of the entries, receives entries with commits allowed only below the backlog limit, and stops only for the reasons the source gives |
| `UpsertSessions.ConsolidationPreservesMeaning` | src/connectors/adaptors.rs:55-65 | a consolidated batch, in whatever order the hash map yields it, has the effect of all buffered updates in sequence |
| `UpsertSessions.ConsolidatedAreTheSame` | src/connectors/adaptors.rs:55-65 | any two consolidations of a buffer are permutations of each other |
| `UpsertSessions.LatestByKey` | src/connectors/adaptors.rs:55-65 | the loop over the buffer keeps exactly the last update of each key |
| `UpsertSessions.UpsertSession.Insert` | src/connectors/adaptors.rs:98-100 | the table as the caller means it gets the value under the key |
| `UpsertSessions.UpsertSession.Remove` | src/connectors/adaptors.rs:102-105 | the table as the caller means it loses the key |
| `UpsertSessions.UpsertSession.AdvanceTo` | src/connectors/adaptors.rs:92-96 | time moves, the table and the buffered times stay valid |
| `UpsertSessions.UpsertSession.ConsolidateBuffer` | src/connectors/adaptors.rs:55-65 | the buffer keeps exactly the last update of each key and the table is unchanged |
| `UpsertSessions.UpsertSession.Flush` | src/connectors/adaptors.rs:84-90 | one batch with at most one update per key is sent, every time between the old epoch and the session time, and the table is unchanged |
| `Tokenizer.RemainingIsSplit` | src/connectors/data_tokenize.rs:107-127 | the entries of an object put together are its bytes: none lost, none repeated |
| `Tokenizer.LineIsMaximal` | src/connectors/data_storage/mod.rs:979-988 | an entry read by line has its newline at its end or is the last one |
| `Tokenizer.TokensIncrease` | src/connectors/data_tokenize.rs:107-127 | positions within an object strictly increase |
| `Tokenizer.EntryPositions` | src/connectors/data_tokenize.rs:107-127 | the position of an entry is the number of bytes of the entries up to and including it |
| `Tokenizer.TokensAreDistinct` | src/connectors/data_tokenize.rs:107-127 | no entry occurs twice in an object |
| `Tokenizer.BufReaderTokenizer.SetNewReader` | src/connectors/data_tokenize.rs:96-105 | a new object restarts the entries and the byte count |
| `Tokenizer.BufReaderTokenizer.NextEntry` | src/connectors/data_tokenize.rs:107-127 | each call delivers the next entry with its position, and nothing when the object is over |
| `PosixReader.ReachableInv` | src/connectors/posix_like.rs:140-281 | after every run of the reader, held rows and rows still to be emitted together make up the cached objects |
| `PosixReader.NeverPanics` | src/connectors/posix_like.rs:232-244 | the copy of an object to be undone is always cached, so the reader's expectations never fail |
| `PosixReader.ReaderAgreesWithCache` | src/connectors/posix_like.rs:140-281 | whenever no action is in progress, emitted insertions minus deletions are exactly the entries of the cached objects |
| `PosixReader.RetractionsCancelOneRow` | src/connectors/posix_like.rs:226-257 | an entry is held at most once at every moment, and one about to be retracted is held |
| `PosixReader.HeldPositionsDiffer` | src/connectors/offset.rs:192-197 | rows of one object held together have different positions, so path and position identify a row |
| `PosixProgress.ActionsAccounted` | src/connectors/posix_like.rs:258-277 | in every run the actions begun and those still queued are the initial queue and then everything the scanner proposed, in order: nothing is lost, repeated or reordered |
| `PosixProgress.CacheFollowsActions` | src/connectors/posix_like.rs:206-257 | at every moment each object is cached as the last action begun on it left it: with the contents read and its metadata, or not at all |
| `PosixProgress.IdleReaderIsUpToDate` | src/connectors/posix_like.rs:206-281 | when nothing is left to do every proposal has been carried out and the cache shows it |
| `PosixProgress.NothingKeptWithoutDeletions` | src/connectors/posix_like.rs:188-199 | when nothing can be undone, only the object being read is kept |
| `PosixProgress.EntriesCounted` | src/connectors/posix_like.rs:140-154 | the offset of every entry is the number of entries read up to it |
| `PosixReader.UpdateRun` | src/connectors/posix_like.rs:180-257 | an update can run to its end, whatever the new contents, and leaves the new version cached |
| `PosixUpdates.EveryUpdateRun` | src/connectors/posix_like.rs:180-257 | every run from an update on emits the retractions of the old version first, and then at once the insertions of the new one and the end of the source, unless the object cannot be read again |
| `PosixUpdates.CommitsIff` | src/connectors/posix_like.rs:178-204 | what the reader emitted allows commits if and only if no object is open and the action closed last was not an update |
| `PosixUpdates.FailedRereadForbids` | src/connectors/posix_like.rs:212-219 | after an update whose object cannot be read again the reader is idle and commits stay forbidden until it begins another action |
| `PosixLikeReaders.PosixLikeReader.constructor` | src/connectors/posix_like.rs:54-75 | a new reader is in the initial state of the model |
| `PosixLikeReaders.PosixLikeReader.Seek` | src/connectors/posix_like.rs:78-128 | seeking restores the cache and, with deletions enabled, queues a removal of the last object if it is gone, an update if it changed and nothing if it did not; without an offset the cache is dropped, which is safe exactly when nothing queued needs a cached copy |
| `PosixLikeReaders.PosixLikeReader.Read` | src/connectors/posix_like.rs:140-165 | one call is a legal run of the model that takes over the scanner's answers in order, is given what the scanner can read, and returns the one result it emits; it ends without one only when nothing is queued or open, and finishes only with polling off and nothing pending |
| `PosixLikeReaders.PosixLikeReader.FinishCurrentAction` | src/connectors/posix_like.rs:178-204 | closing an action refines the specified step, an update being followed by a read |
| `PosixLikeReaders.PosixLikeReader.NextScannerAction` | src/connectors/posix_like.rs:206-281 | the loop over queued actions and scanner rounds is such a run |
| `PosixLikeReaders.PosixLikeReader.BeginAction` | src/connectors/posix_like.rs:208-257 | starting an action refines the specified step; an unreadable object is skipped |
| `AtomicUpdates.ForbiddenCommitsFreezeTime` | src/connectors/mod.rs:721-759 | while commits are forbidden no timer, full backlog or completion moves time, so all rows get one timestamp |
| `AtomicUpdates.ResultsFedAtOnce` | src/connectors/mod.rs:888-907 | from the opening of an object until commits are allowed again all rows are fed at one timestamp, whatever happens in between |
| `AtomicUpdates.UpdateIsAtomic` | src/connectors/posix_like.rs:180-257 | end to end, for every run of the reader from an update on and every run of the connector that receives any part of what it emitted: the retractions of the old version and the insertions of the new one are fed at one timestamp |
| `AtomicUpdates.CommitsFollowReader` | src/connectors/mod.rs:721-736 | the auto-commit timer commits if and only if no object is open and the action that the reader closed last was not an update, so after a failed re-read it commits nothing until another object is finished |
| `StartupBatch.SentinelOpensBatch` | src/connectors/mod.rs:941-972 | the end of the replay moves time to the shared start timestamp unless the replay is already past it |
| `StartupBatch.StartupBatchIsWhole` | src/connectors/mod.rs:888-904 | while the start-up batch is open, completed objects do not split it, however the clock moves |
| `StartupBatch.StartupBatchesMeet` | src/connectors/mod.rs:941-972 | whatever a source replayed up to the shared start, its whole start-up batch is fed at the shared timestamp, so sources started together agree |
| `BatchApply.ChunksPartition` | src/python_api.rs:1410-1412 | chunks of at most the batch size put together are the input |
| `BatchApply.AssembleTotal` | src/python_api.rs:1430-1472 | whatever the function answers, there is one output per input row, and `None` for a row with a `None` among its arguments if those propagate |
| `BatchApply.PerRowIs` | src/python_api.rs:1543-1558 | the per-row branch gives `None` for a row with a `None` among its arguments if those propagate, and the value of the function otherwise |
| `BatchApply.FailedBatchFailsItsRows` | src/python_api.rs:1434-1456 | a batch that fails or answers with a wrong number of rows fails exactly its rows without None |
| `BatchApply.AssemblePointwise` | src/python_api.rs:1519-1558 | for a pointwise function the batched results are the per-row ones |
| `BatchApply.BuildChunk` | src/python_api.rs:1413-1427 | the loops mark exactly the rows with a `None` among their arguments if those propagate, and count and transpose the others |
| `BatchApply.UnmaskResults` | src/python_api.rs:1457-1467 | the iterator never runs out: masked rows give None and the others their own result |
| `BatchApply.Run` | src/python_api.rs:1403-1472 | one output per row and `None` for rows with a `None` among their arguments, for any logic; for any pointwise logic, any positive batch size and at least one argument, the value of the function for every other row, which is what the per-row branch gives |
| `GateLock.PurgerIsAlone` | integration_tests/db_connectors/utils.py:230-248 | in every run a purger inside excludes every reader and every other purger |
| `GateLock.ReaderPastGateNeverBlocked` | integration_tests/db_connectors/utils.py:208-227 | a reader holding the gate never waits for the main lock |
| `GateLock.NoDeadlock` | integration_tests/db_connectors/utils.py:208-248 | in every reachable state some process can move, and one that is past its first step if there is one |
| `GateLock.PurgerWaitIsBounded` | integration_tests/db_connectors/utils.py:230-248 | once a purger holds the gate no reader enters before it, at most the readers already inside move first, and it may enter exactly when they have left |
| `GateLock.EveryoneKeepsCourse` | integration_tests/db_connectors/utils.py:208-248 | in every run each process makes its lock calls one at a time and in the order written, and holds exactly what they leave it with |
| `ConcurrencySlots.ReachableExclusive` | integration_tests/db_connectors/utils.py:293-319 | in every run no slot is held twice |
| `ConcurrencySlots.NeverOverLimit` | integration_tests/db_connectors/utils.py:293-319 | in every run no more tests are admitted at a time than there are slots |
| `ConcurrencySlots.TryAll` | integration_tests/db_connectors/utils.py:304-313 | one pass over the lock files, with any moves of the other tests between the attempts, ends with the test holding the file it returns or back at the first one |

## Left out

- SyncGroupTheorems.HotPathRefinesSlowPath: one direction only. Proposals that do not go below the outstanding one are sufficient; a run may break this and still be harmless, which cannot be seen before the call.
- SyncGroupSkew.BoundedSkew: needs equal priorities, no idling and non-decreasing proposals, under which the source promises a bound; several workers per source are allowed.
- BatchApply.Run: agreement with the per-row branch needs at least one argument, since without columns a batch does not show how many rows it has.
- PosixLikeReaders.PosixLikeReader.Seek: is called before anything was emitted, as at start-up; the comparison of stored tags is one of metadata.
- ConnectorRecovery.RecoveryExactlyOnce: assumes rows of the declared shape and one message per read in the order of offsets; both conditions are shown to be needed by `MalformedRowIsReplayed` and `SplitReadRunsAhead`.
- Connectors.Connector.AdvanceTo: does not model flushing the session or reporting the time to the group, which the modules on upserts and on the time barrier cover on their own.
- Connectors.Connector.HandleInputEntry: does not model handing the approvals of a message back to the group, which is a step of the group itself.
- Connectors.Connector.Poll: does not model deferring entries of a connector group, reporting idleness to it, or the pause of a speedrun until the output has caught up, which delay the handling of entries but do not change it.
- Tracked sources are values in the group's vector instead of objects updated in place; nothing else in the source refers to them.
- The kind of event (insertion or deletion) is kept in the reader instead of in the tokenizer.
- Overflow of 64-bit values and timestamps: all numbers are unbounded.
- Durations and date-times as group values, and the check that all values have one type.
- Oneshot channels, threads, sleeping and logging: a queued reader is notified by leaving the queue.
- Snapshot modes that keep offsets only and the initial timestamp of batch replay.
- Chunking, truncation and storage backends of snapshots, and the insides of offset antichains.
- The scanners and the cached object storage beyond their contracts, and version numbers of the cache.
- `CsvTokenizer`, parsers, key generation and error logging.
- Asynchronous UDFs and everything else in `src/python_api.rs`.
- Retry and back-off loops, monitoring, writers and the integration test helpers other than the two locks.
