# Verified models of the deployment, dashboard and process-control code

This project models the parts of the arbitrage repository whose correctness is a matter of
interleaving, incremental state or exact text, and proves what they promise. One command checks
everything: `dafny verify dfyconfig.toml`.

| module | what it models |
|---|---|
| `RegistryData`, `RegistryProtocol`, `RegistrySafety`, `RegistryAccounts`, `RegistryRuns`, `RegistryCall` | `withRegistryLock` and its two callers: any number of deployer processes, one registry file, one temp file, one lock; every file operation one step, any of them may fail, any process may crash at any step |
| `AddressTable` | merges into the central registry and the address table extracted from it, joined to the protocol |
| `DeploymentSteps` | router approval and the verification retry loop |
| `PidLock`, `PidLockRuns`, `PidCall` | the hand-written lock of the PID file: exclusion under an exact side condition, and runs that show each condition is needed |
| `Standby` | the promise-based mutex of standby activation, one step per segment between two awaits |
| `LiveFeed`, `ChainsTab`, `ChainsTabRuns` | the reducer's bounded feed, the failure streak, and the tab totals accumulated from the feed |
| `Csv`, `Template`, `TemplateRaw`, `GeneratedAddresses`, `AddressesReader`, `ErrorSelectors` | the printers and generators |
| `Chart` | zoom, hover and the two scales of the chart |

The protocols are state machines: `Next` gives the state after one event, or nothing when the event
is not possible, and `Run` folds it over a list of events. What failed, who runs next, who crashes
and what the outside world answers are all part of the event list, so a theorem about every list is
a theorem about every interleaving and every pattern of failures. `RegistryCall` and `PidCall`
restate the loops and branches of the source as Dafny methods over such a machine, with steps of
other processes between any two operations, and show that whatever the methods do is a run; the
theorems about runs therefore hold of them.
`Standby.StandbyActivationManager`, `LiveFeed.SSEProvider`,
`ChainsTab.ChainsTabRefs`, `Chart.ChartState` and `RegistryData.RegistryObject` do the same for
objects that the source updates in place.

## What turned out to be conditional

- Serialisability of the registry needs the five-minute stale timeout never to fire on a call that
  is between acquiring the lock and its rename. It may fire on any other lock, such as one left
  behind by a crash or by a failed unlock. The condition is exact
  (`RegistryRuns.ExpiryBreaksExactlyThere`): every timeout that violates it, while another call is
  about to lock a readable registry, can lose a committed update
  (`RegistryRuns.ExpiryLosesAnUpdate`).
- A `withRegistryLock` call commits exactly once only when no unlock after its rename failed. If one
  does, and if the text of that unlock's error contains `ELOCKED`, the call starts over and commits
  again, possibly over a newer deployment: `RegistryRuns.FailedUnlockCommitsAgain`. Whether
  `proper-lockfile` ever words an unlock error that way is not part of this model; the claim rests on
  that assumption. The exact count for every run and every error text is in
  `RegistryAccounts.CallsEndAccounted`.
- The exclusive create and the write of `{}` are two steps. A process that dies between them leaves
  an empty file (`RegistryRuns.CrashLeavesAnEmptyFile`), and from then on every call fails:
  nothing is ever committed and no call returns (`RegistryRuns.UnparsableForGood`). A process
  that reads in between fails with the corruption error. Neither loses a committed update
  (`RegistrySafety.Serialisable`).
- A merge into a network entry that is an array is lost, because string keys on an array do not
  survive serialisation; `AddressTable.LastMergeWins` says exactly when. A null entry makes the
  extraction throw (`AddressTable.ExtractAddressesByType`).
- Mutual exclusion of the PID lock is false in general. It holds as long as no step unlinks the lock
  of a live holder, and the first such step is exactly where it breaks
  (`PidLock.ExclusionBreaksExactlyThere`). Three conditions on the surroundings guarantee it (no past
  holder exits, a failed create is followed at once by a read that succeeds, no removal empties the
  map), and
  for each of them there is a run that keeps the other two and ends with two holders. A call holds
  the lock from its create to the first unlink of its own lock: when a removal empties the map, that
  is the unlink inside `deletePidFile`, and the call's `releasePidLock` still follows. Between the
  two another call may already hold the lock, and the first one changes the PID file no more.
- One observation of the chains tab agrees with the plain fold exactly when no execution lies beyond
  the 50-item window since the observation before (`ChainsTab.ObserveAgreesExactlyWhen`). When the
  empty feed of a reset is not rendered, ids start again at 1 while the old ones are remembered, and
  an execution is passed over exactly when its id was counted before
  (`ChainsTab.ObserveSelects`, `ChainsTabRuns.NothingCountedTwice`);
  `ChainsTabRuns.UnseenResetMissesAnExecution` is a run where that happens. The earlier totals stay in
  the map as well (`ChainsTabRuns.EarlierTotalsStay`), so the next render agrees with the items since
  the reset, whatever they are, if and only if nothing was counted before it
  (`ChainsTabRuns.UnseenResetIsHarmlessExactlyWhen`).
- The backfill after a reconnect removes repetitions among the fetched alerts only. An alert that
  also arrived as an event since the reset is in the feed twice
  (`LiveFeed.AlertDuringBackfillShowsTwice`), which the comment at
  `dashboard/src/context/SSEContext.tsx:349` says is prevented. No alert is dispatched twice exactly
  when those that arrived in between are distinct and not among the first 20 fetched
  (`LiveFeed.BackfillRepeatsExactlyWhen`).
- Values put in by triple braces are scanned for double-brace placeholders afterwards
  (`TemplateRaw.RawValuesAreScannedAgain`); values put in by double braces never are. A raw value comes
  out verbatim, whatever else the data holds, if and only if it contains no double-brace placeholder
  or is nothing but its own one (`TemplateRaw.RawIsVerbatimExactlyWhen`). Among other text it does if
  it has no two opening braces in a row and none at its end (`TemplateRaw.RenderOfMixed`).
- A row without cells is exported as an empty line, which reads back as one empty cell
  (`Csv.ReadBack`).
- When a callback of standby activation throws, an activating flag can stay up for good:
  `Standby.ThrowingCallbackLeavesServiceFlag` is such a run, and `Standby.FlagsAfterAllReturned` says
  for every run when it happens. `Standby.ActivationAnnouncedOnce` is therefore about runs without
  callback faults in which nothing else sets standby again; clearing it elsewhere is allowed.
  `Standby.MutexHolds` is about all runs in which no callback calls `activateStandby` again.

Where the code and its comments disagree, the model follows the code: the comment on
`withRegistryLock` (`contracts/scripts/lib/deployment-utils.ts:947`) promises about 7 seconds of
waiting and the code sleeps at most 3; the third delay named at
`contracts/scripts/lib/deployment-utils.ts:845` is never slept with the default three attempts; the
head of `contracts/scripts/generate-addresses.ts` (line 21) says that manual sections are not
preserved and the code preserves them.

## Model

| member | source | states |
|---|---|---|
| RegistrySafety.Serialisable | contracts/scripts/lib/deployment-utils.ts:950-1060 | for any number of deployers, any interleaving, failures and crashes, the file is absent, created and still empty with nothing committed, or the committed mutators folded in rename order over the starting registry, as long as no stale timeout fires on a call between its lock and its rename |
| RegistrySafety.EveryStepIsAtomic | contracts/scripts/lib/deployment-utils.ts:966-1012 | a reader without the lock never sees a partial commit: one step leaves the file alone, creates it, fills in `{}`, or replaces one whole registry by the same registry with one whole mutator applied |
| RegistrySafety.LeftoverTempIrrelevant | contracts/scripts/lib/deployment-utils.ts:1009-1012 | two runs that differ only in a temp file left by an earlier crash commit the same mutators and end alike |
| RegistryAccounts.CallsEndAccounted | contracts/scripts/lib/deployment-utils.ts:955-1059 | a call never runs off its loop, has committed once per failed unlock after a rename plus once if and only if it returned, holds no lock when it returned and when it threw only if the last unlock it tried failed, and k retries slept 1000(2^k - 1) ms, at most 3000 |
| RegistryAccounts.OtherErrorsAreFinal | contracts/scripts/lib/deployment-utils.ts:1036-1058 | an error of the attempt that does not read as a lock error is final, whatever follows: no further attempt, no more sleep, no more commits, never a return, and any ending is a throw or a crash |
| RegistryAccounts.LockErrorsAreRetried | contracts/scripts/lib/deployment-utils.ts:1036-1046 | an error that reads as a lock error in the first two attempts is retried: the call neither throws nor returns before the next attempt has started |
| RegistryAccounts.ReturnedCallsAreInTheFold | contracts/scripts/lib/deployment-utils.ts:1007-1019 | what a call that returned wrote is among the mutators that the file is the fold of |
| RegistryRuns.UnparsableForGood | contracts/scripts/lib/deployment-utils.ts:966-1004 | once the file is unparsable and no call is about to fill it in, whatever follows, it stays unparsable, nothing is committed and no call returns |
| RegistryRuns.CrashLeavesAnEmptyFile | contracts/scripts/lib/deployment-utils.ts:967 | a run of two events that reaches such a state: the file is created and its creator dies |
| RegistryRuns.ExpiryBreaksExactlyThere | contracts/scripts/lib/deployment-utils.ts:974-1012 | at the first stale timeout that fires while another call is about to lock: its owner is between lock and rename if and only if that lock puts a second call between lock and rename |
| RegistryRuns.ExpiryLosesAnUpdate | contracts/scripts/lib/deployment-utils.ts:974-1012 | after every such timeout there is a continuation in which both calls commit and the file is as if the first one never had |
| RegistryRuns.RunToRename | contracts/scripts/lib/deployment-utils.ts:980-1012 | a call between lock and rename that runs undisturbed commits its mutator on top of the registry it read, whatever the file holds by then |
| RegistryRuns.StaleTimeoutOnRunningOwnerLosesAnUpdate | contracts/scripts/lib/deployment-utils.ts:974 | a concrete run: the lock of a running process is broken as stale and another process's committed update is overwritten |
| RegistryRuns.FailedUnlockCommitsAgain | contracts/scripts/lib/deployment-utils.ts:1012-1046 | a concrete run: after a failed unlock whose error text contains the lock error code the call commits its update a second time, over the newer update of another call |
| RegistrySafety.InvPreserved | contracts/scripts/lib/deployment-utils.ts:958-1059 | every step of every process keeps the invariant that the file is the fold of the commits so far and that each call in the critical section owns the lock and knows the file |
| RegistrySafety.SameStep | contracts/scripts/lib/deployment-utils.ts:1010-1012 | no step of an invariant state depends on the content of a leftover temp file |
| RegistryAccounts.AccountPreserved | contracts/scripts/lib/deployment-utils.ts:1014-1046 | every step keeps the account of attempts, time slept, commits, failed unlocks and the last unlock of every call, stale timeouts included |
| RegistryCall.WithRegistryLock | contracts/scripts/lib/deployment-utils.ts:950-1060 | the retry loop, among arbitrary steps of others, ends by returning or throwing after at most three attempts and 3 s of sleep; every attempt but the last was ended by an operation whose error reads as a lock error, a throw follows an error of another kind or the third attempt, and it has renamed once if it returned plus once per failed final unlock |
| RegistryCall.OneAttempt | contracts/scripts/lib/deployment-utils.ts:959-1036 | one pass of the loop returns, or reaches the decision with the error of the operation that ended it; errors of the two unlocks that are only reported do not count |
| RegistryCall.ReadRegistry | contracts/scripts/lib/deployment-utils.ts:977-1004 | a failed read releases the lock before throwing its own error, unless that unlock fails as well |
| RegistryCall.MutateAndWrite | contracts/scripts/lib/deployment-utils.ts:1006-1012 | ends either right after the rename or in the catch clause, with the lock still held |
| RegistryCall.CatchClause | contracts/scripts/lib/deployment-utils.ts:1021-1036 | the catch clause tries to unlock exactly when the lock is recorded as acquired, and keeps the error it caught |
| RegistryData.RegistryObject.Store | contracts/scripts/lib/deployment-utils.ts:1080-1087 | the per-contract callback puts the record under its network, and every other network's entry stays, present or not |
| RegistryData.RegistryObject.MergeContract | contracts/scripts/lib/deployment-utils.ts:1115-1134 | the in-place property assignments of the central callback are the merge that the results about merges speak of, arrays and missing entries included |
| RegistryData.FoldSnoc | contracts/scripts/lib/deployment-utils.ts:1007-1012 | committing one more mutator extends the fold at its end |
| AddressTable.KeysDisjoint | contracts/scripts/lib/deployment-utils.ts:1121-1126 | the keys written for two contract types without underscores never coincide |
| AddressTable.MergeFrame | contracts/scripts/lib/deployment-utils.ts:1115-1134 | a merge changes no address and no metadata of any other contract type or network |
| AddressTable.LastMergeWins | contracts/scripts/lib/deployment-utils.ts:1115-1134 | after any sequence of merges each (network, type) pair holds address and metadata of its last merge, and what it held before if there was none; it fails exactly for array entries |
| AddressTable.SharedKeysTellOfTheLast | contracts/scripts/lib/deployment-utils.ts:1127-1129 | deployedAt and deployedBy tell of the last merge into the network, whatever its type |
| AddressTable.MergeAddsNothingElse | contracts/scripts/lib/deployment-utils.ts:1115-1134 | a merge changes no key of any entry besides its four own and the two shared ones |
| AddressTable.MergeIdempotent | contracts/scripts/lib/deployment-utils.ts:1115-1134 | merging twice is merging once |
| AddressTable.MergesCommute | contracts/scripts/lib/deployment-utils.ts:1121-1129 | merges for different pairs commute up to the shared deployedAt and deployedBy, and entirely when the networks differ |
| AddressTable.ExtractColumn | contracts/scripts/generate-addresses.ts:176-187 | one column holds exactly the networks, keys with a leading underscore excluded, whose value is a string that is neither empty nor the zero address, each with that string; it throws if and only if some network entry is null |
| AddressTable.ExtractAddressesByType | contracts/scripts/generate-addresses.ts:167-194 | the table has exactly the seven listed types, each with its column |
| AddressTable.TableIsWhatWasDeployed | contracts/scripts/generate-addresses.ts:114-194 | after any run of any number of deployers, the extracted table maps a listed type and network to the address of the last committed deployment of that pair, if usable, and to nothing otherwise |
| DeploymentSteps.SendApprovals | contracts/scripts/lib/deployment-utils.ts:699-721 | splits the routers by whether the send succeeded, in order; throws exactly when a send fails without continueOnError |
| DeploymentSteps.SettleApprovals | contracts/scripts/lib/deployment-utils.ts:723-751 | splits the sent routers by confirmation, in order, after the failures already recorded |
| DeploymentSteps.ApproveRouters | contracts/scripts/lib/deployment-utils.ts:686-765 | succeeded and failed together are the input as multisets, succeeded is the input in order filtered by both send and confirmation; without continueOnError it returns if and only if every router succeeded |
| DeploymentSteps.Accounting | contracts/scripts/lib/deployment-utils.ts:696-764 | the two filters one after the other neither lose nor duplicate a router, and what failed was not approved |
| DeploymentSteps.FilterPartitions | contracts/scripts/lib/deployment-utils.ts:701-751 | a yes/no split of the routers is a permutation of them |
| DeploymentSteps.FilterKeepsOrder | contracts/scripts/lib/deployment-utils.ts:701-751 | a filtered list keeps the input order and leaves out nothing that passes |
| DeploymentSteps.VerifyContractWithRetry | contracts/scripts/lib/deployment-utils.ts:807-853 | succeeds if and only if an attempt within the limit succeeds after retryable failures only; r retries slept 10000(2^r - 1) ms |
| PidLock.SafeUnlinksGiveExclusion | scripts/lib/pid-manager.js:69-235 | while no unlink removes the lock of a live holder, at most one live call is between its create and the first unlink of its own lock (the one in deletePidFile counts), and the PID file has for every service the pid of its last completed update, nothing after a removal, and what it held before if no completed operation concerned it |
| PidLock.DisciplineIsEnough | scripts/lib/pid-manager.js:84-97 | unlinking only the own lock, or one whose recorded owner is dead, never removes a live lock |
| PidLock.ExclusionBreaksExactlyThere | scripts/lib/pid-manager.js:76-98 | with any live call waiting to create, the next step removes a live lock if and only if that create then puts a second call into the critical section |
| PidLock.ConditionsGiveExclusion | scripts/lib/pid-manager.js:69-119 | exclusion and the same contents of the PID file hold when no past holder exits, a failed create is followed at once by a read that succeeds, and no removal empties the map |
| PidLock.CompletionChangesOneName | scripts/lib/pid-manager.js:191-216 | the rename of an update or removal, or the unlink of the emptied file, changes the entry of its own service and no other |
| PidLock.CalmPreserved | scripts/lib/pid-manager.js:84-98 | under the three conditions no step ever enters a recovery branch or removes a live lock |
| PidLockRuns.ExitOfAHolderBreaksExclusion | scripts/lib/pid-manager.js:86-92 | a run with two holders that breaks only the first condition |
| PidLockRuns.RaceAfterExit | scripts/lib/pid-manager.js:86-92 | two waiters that probed the same dead holder: the slower one unlinks the lock of the faster one |
| PidLockRuns.LateReadBreaksExclusion | scripts/lib/pid-manager.js:79-98 | a run with two holders that breaks only the second condition: the read comes late and fails |
| PidLockRuns.LateUnlinkHitsNewcomer | scripts/lib/pid-manager.js:95-98 | a waiter whose read failed because the lock was released meanwhile unlinks the lock of a newcomer |
| PidLockRuns.EmptyingTheMapBreaksExclusion | scripts/lib/pid-manager.js:205-235 | a run with two holders that breaks only the third condition |
| PidLockRuns.SecondReleaseHitsNewcomer | scripts/lib/pid-manager.js:113-119 | releasing a lock that deletePidFile removed already unlinks the lock of a newcomer |
| PidCall.AcquirePidLock | scripts/lib/pid-manager.js:69-108 | the acquisition loop ends with the lock created and stamped, with the timeout, or with an exception, and never changes the PID file |
| PidCall.InspectLock | scripts/lib/pid-manager.js:80-101 | every branch taken on EEXIST leads back to the loop head |
| PidCall.SavePids | scripts/lib/pid-manager.js:145-157 | a save that fails leaves the PID file as it was, one that succeeds is one completed change |
| PidCall.DeletePidFile | scripts/lib/pid-manager.js:221-235 | removes the PID file, then the lock file; errors do not stop it |
| PidCall.UpdateOrRemovePid | scripts/lib/pid-manager.js:169-216 | an update or removal always ends and releases; failed means nothing changed, succeeded means changed exactly once except for an unlink failure that is only warned about; the file holds the last completed operation of every service if no live lock was removed |
| Standby.MutexHolds | services/coordinator/src/standby-activation-manager.ts:87-127 | in every run, no callback calling activateStandby again, at most one activation body is in flight, a resuming owner clears exactly its own promise, every call returned the result of its promise, and without owners the promise is null |
| Standby.CallersShareTheFoundPromise | services/coordinator/src/standby-activation-manager.ts:90-127 | a call that finds a promise starts no body and returns that promise's result; any other call returns the result of the promise it installed |
| Standby.AnswersExactly | services/coordinator/src/standby-activation-manager.ts:87-188 | every call that returned answered true if and only if the maker of its promise found the instance leader, or that promise's acquisition succeeded with no success callback and no reset throwing; it was rejected exactly for a throwing getter, service lookup, flag setter or reset; and false otherwise |
| Standby.ReturnedPromiseWasMade | services/coordinator/src/standby-activation-manager.ts:118-122 | every call that returned has the answer of a promise that some call of the run made |
| Standby.ActivationAnnouncedOnce | services/coordinator/src/standby-activation-manager.ts:97-188 | whenever callbacks do not throw and nothing else sets standby again, the success callback and clearStandby run together exactly when leadership was acquired, at most one activation acquires, both flags are up exactly while a body awaits, and all is clear once every call returned |
| Standby.FlagsAfterAllReturned | services/coordinator/src/standby-activation-manager.ts:154-187 | in every run, whatever throws: the flags are up while a body awaits, and once every call returned the service flag is up if and only if the last body that set it had a throwing local callback or a throwing service reset, the local flag if and only if the last body that set it had a throwing reset |
| Standby.ThrowingCallbackLeavesServiceFlag | services/coordinator/src/standby-activation-manager.ts:156-160 | a run with one call whose local callback throws and after which the service flag is still up |
| Standby.FlagsPreserved | services/coordinator/src/standby-activation-manager.ts:139-187 | every step keeps the account of why a flag is up |
| Standby.StartInv | services/coordinator/src/standby-activation-manager.ts:87-119 | starting a call keeps the mutex invariant for every answer of the dependencies |
| Standby.ResumeInv | services/coordinator/src/standby-activation-manager.ts:121-126 | the finally clause keeps the invariant and clears only the promise its own call installed |
| Standby.RegularPreserved | services/coordinator/src/standby-activation-manager.ts:139-188 | each step, clearing of the standby flag elsewhere included, keeps flags, standby flag and announcements in agreement, and announces only on an acquisition |
| Standby.StandbyActivationManager.constructor | services/coordinator/src/standby-activation-manager.ts:62-64 | a new manager is an initial state |
| Standby.StandbyActivationManager.ActivateStandby | services/coordinator/src/standby-activation-manager.ts:87-119 | activateStandby up to its await is the start step |
| Standby.StandbyActivationManager.DoActivateStandby | services/coordinator/src/standby-activation-manager.ts:139-162 | where the body stands at its first await and which flags are up, for throws of the service lookup, of either flag and of the acquisition |
| Standby.StandbyActivationManager.ResetFlags | services/coordinator/src/standby-activation-manager.ts:183-187 | the finally clause resets the service flag first, and the local one only if that did not throw |
| Standby.StandbyActivationManager.AcquisitionEnds | services/coordinator/src/standby-activation-manager.ts:162-188 | the body from its await on is the acquisition step, finally clause included |
| Standby.StandbyActivationManager.Resumes | services/coordinator/src/standby-activation-manager.ts:121-126 | activateStandby from its await on is the resume step |
| LiveFeed.FeedIsWellNumbered | dashboard/src/context/SSEContext.tsx:108-126 | after any actions feed[i] has counter nextFeedId - i and the feed holds the latest 50 items since the reset |
| LiveFeed.FeedHoldsTheLatest | dashboard/src/context/SSEContext.tsx:108-126 | the feed is the latest 50 of all execution results and alerts dispatched since the reset, newest first, each with its own data and number |
| LiveFeed.CountFailureStreak | dashboard/src/lib/feed-utils.ts:6-13 | the loop counts the longest prefix of failed executions |
| LiveFeed.Streak | dashboard/src/lib/feed-utils.ts:6-13 | the streak is the length of the longest prefix of failures: all before it fail, the next one does not |
| LiveFeed.StreakNeverOutrunsCounter | dashboard/src/context/SSEContext.tsx:283-319 | in every reachable state the feed streak is min(50, failures since the last success, alert or reset) and at most the notification counter |
| LiveFeed.CountersAreExact | dashboard/src/context/SSEContext.tsx:283-318 | the notification counter is the number of failures taken in since the last success taken in, and the dropped counter the number of payloads rejected while not paused |
| LiveFeed.StreakStep | dashboard/src/context/SSEContext.tsx:108-126 | each event, pause, malformed payload, backfilled alert or reset keeps the streak equation |
| LiveFeed.SSEProvider.OnEvent | dashboard/src/context/SSEContext.tsx:283-319 | one event moves feed, streak counter and dropped counter together; the notification is sent exactly when the counter rose to 3 or more |
| LiveFeed.SSEProvider.Reconnect | dashboard/src/context/SSEContext.tsx:333-338 | up to its fetch a reconnect only resets |
| LiveFeed.SSEProvider.BackfillAlerts | dashboard/src/context/SSEContext.tsx:347-361 | from whatever state the answer finds, the first 20 fetched alerts are dispatched without malformed ones and repetitions among them |
| LiveFeed.AlertDuringBackfillShowsTwice | dashboard/src/context/SSEContext.tsx:349-358 | one alert, same type and timestamp, that arrives as an event between reset and backfill and is fetched too is in the feed twice |
| LiveFeed.BackfillRepeatsExactlyWhen | dashboard/src/context/SSEContext.tsx:335-361 | whatever happens between reset and answer, no alert is dispatched twice since the reset if and only if those that arrived are distinct and none is among the first 20 fetched; up to 50 items the feed holds exactly these alerts |
| LiveFeed.BackfillDispatchesOnce | dashboard/src/context/SSEContext.tsx:351-359 | the backfill dispatches exactly the well-formed fetched alerts, each once |
| LiveFeed.BackfillInOrder | dashboard/src/context/SSEContext.tsx:352-359 | well-formed alerts without repetitions are dispatched in the order in which they were fetched |
| LiveFeed.FeedAlertsAreTheLatest | dashboard/src/context/SSEContext.tsx:113-117 | the alerts in the feed are the latest of those dispatched since the reset, all of them up to 50 items |
| ChainsTabRuns.TotalsAreTheFold | dashboard/src/tabs/ChainsTab.tsx:39-79 | if at most 50 items pass between renders and every reset is seen, the map shown after a render has exactly the chains that occur since mount or the last reset, and for each: executions and successes as cardinalities, the latest timestamp, and latency, profits between -100000 and 100000 and gas costs below 10000 as sums over the items |
| ChainsTab.TotalsDescribe | dashboard/src/tabs/ChainsTab.tsx:55-74 | the fold is, field by field, these cardinalities, sums and maximum over the items, for every list of items and every key compared character by character with the lower-cased chain name |
| ChainsTab.ObserveAgreesExactlyWhen | dashboard/src/tabs/ChainsTab.tsx:42-79 | one observation brings the tab back to the fold if and only if no pending item beyond the window is an execution |
| ChainsTab.ObserveCountsTheWindow | dashboard/src/tabs/ChainsTab.tsx:50-75 | an observation adds exactly the pending items still in the window and skips all others |
| ChainsTabRuns.NothingCountedTwice | dashboard/src/tabs/ChainsTab.tsx:43-75 | in every run, with no bound and no condition on resets, the totals are those of a selection of the executions dispatched since the last rendered empty feed in which no id occurs twice; passed over are those whose id was counted before |
| ChainsTab.ObserveSelects | dashboard/src/tabs/ChainsTab.tsx:50-75 | one observation of any feed adds exactly the executions whose ids were not counted before |
| ChainsTabRuns.SeenResetsSelectFromTheHistory | dashboard/src/tabs/ChainsTab.tsx:43-48 | when every reset is seen, the selection is one of the history since the last reset |
| ChainsTabRuns.UnseenResetIsHarmlessExactlyWhen | dashboard/src/tabs/ChainsTab.tsx:43-75 | after an unrendered reset the next render agrees, for every choice of the items dispatched since, if and only if nothing was counted before the reset |
| ChainsTabRuns.EarlierTotalsStay | dashboard/src/tabs/ChainsTab.tsx:57-78 | an observation of a non-empty feed keeps the totals of every chain in the map and adds the new ones to them |
| ChainsTabRuns.UnseenResetMissesAnExecution | dashboard/src/tabs/ChainsTab.tsx:43-48 | a run within the window whose reset is not rendered and whose totals miss an execution |
| ChainsTab.TotalsConcat | dashboard/src/tabs/ChainsTab.tsx:62-74 | the totals of two histories add up field by field, caps and maximum included |
| ChainsTab.ChainsTabRefs.UpdateFrom | dashboard/src/tabs/ChainsTab.tsx:42-79 | the loop over the feed with its two refs is one observation, and afterwards shows, field by field, what was counted before and the new executions of the feed |
| Csv.ToCsv | dashboard/src/lib/export.ts:18-24 | parsing the exported text gives back headers and rows, cell by cell, with only the tab prefix added |
| Csv.ReadCell | dashboard/src/lib/export.ts:4-16 | after a printed cell a reader for section 2 of RFC 4180 holds exactly the text of the cell |
| Csv.ReadLines | dashboard/src/lib/export.ts:19-23 | the printed lines read back record by record |
| Csv.NoFormulaSurvives | dashboard/src/lib/export.ts:8-11 | headers and rows read back cell by cell as their text, or their text behind one tab exactly when it starts with =, +, - or @, so that no decoded cell does |
| Csv.QuotedExactlyWhen | dashboard/src/lib/export.ts:12-15 | a cell is quoted exactly when its text has a comma, a quote, a line feed or a tab |
| Template.EscapeIsPerCharacter | scripts/lib/template-renderer.js:27-35 | the five successive replacements are one per-character map |
| Template.EscapeIsInvertible | scripts/lib/template-renderer.js:27-35 | escaping has a left inverse on all strings |
| Template.EscapedIsInert | scripts/lib/template-renderer.js:27-35 | escaped text holds no <, > or quote |
| Template.SecondPassExpandsPieces | scripts/lib/template-renderer.js:52-56 | the double-brace pass is literal text with each value escaped once; cutting a text into pieces loses nothing |
| Template.MatchExactlyWhen | scripts/lib/template-renderer.js:48-53 | a placeholder is its braces around a path that is not empty and has no closing brace, and nothing else is |
| Template.RenderExpandsPieces | scripts/lib/template-renderer.js:46-58 | without triple-brace placeholders rendering is that expansion, so no value is scanned again |
| Template.RenderOfPrint | scripts/lib/template-renderer.js:46-58 | a template written as text and placeholders, single opening braces in the text allowed, renders with each escaped value where its placeholder stood |
| TemplateRaw.RenderOfMixed | scripts/lib/template-renderer.js:46-58 | with raw placeholders as well, raw values appear as they are and all others escaped once, if no raw value has two opening braces in a row or one at its end |
| TemplateRaw.FirstPassUnraws | scripts/lib/template-renderer.js:47-51 | for any values the triple-brace pass replaces exactly the raw placeholders and copies everything else |
| TemplateRaw.RawIsVerbatimExactlyWhen | scripts/lib/template-renderer.js:46-58 | a raw value is rendered verbatim whatever else the data holds if and only if it contains no double-brace placeholder or is its own one, unchanged by escaping |
| Template.PiecesOfPrint | scripts/lib/template-renderer.js:53 | writing a template down and cutting it into pieces gives the pieces back |
| TemplateRaw.RawValuesAreScannedAgain | scripts/lib/template-renderer.js:46-56 | a raw value with a placeholder in it is expanded by the second pass |
| GeneratedAddresses.GenerateTypeScriptCode | contracts/scripts/generate-addresses.ts:248-329 | the file is the constants followed by the old manual section, or by the stub |
| AddressesReader.FileReadsBack | contracts/scripts/generate-addresses.ts:288-304 | behind its fixed header the generated file reads back as exactly the columns it was made from, in order, with type, constant name, every entry and the right number of entries |
| GeneratedAddresses.ConstantsHaveNoMarker | contracts/scripts/generate-addresses.ts:253-304 | the marker occurs nowhere above the boundary |
| GeneratedAddresses.FirstIsBoundary | contracts/scripts/generate-addresses.ts:218-227 | the first marker found in a generated file is the one at the boundary |
| GeneratedAddresses.GeneratedKeepsManualSection | contracts/scripts/generate-addresses.ts:306-326 | extracting from the generated file gives back exactly what was kept in it |
| GeneratedAddresses.ManualSectionNeverChanges | contracts/scripts/generate-addresses.ts:209-329 | any number of regenerations leaves the manual section byte for byte as it was; a file without one gets the stub once and keeps it |
| GeneratedAddresses.IndexFrom | contracts/scripts/generate-addresses.ts:218 | the position found is the first occurrence, and none is found only if there is none |
| ErrorSelectors.GenerateSelectors | scripts/generate-error-selectors.ts:88-135 | completes if and only if no two distinct signatures share a selector; the table is sorted, a bijection between all signatures and their selectors, and each entry carries name and contract of the first error with its signature |
| ErrorSelectors.TableIsDetermined | scripts/generate-error-selectors.ts:134-135 | two sorted tables over the same signatures agree entry by entry |
| ErrorSelectors.OrderDoesNotMatter | scripts/generate-error-selectors.ts:92-135 | any two lists of ABIs with the same signatures collide together or give the same table of selectors, signatures and (names having no parenthesis) names |
| ErrorSelectors.ReorderingKeepsSignatures | scripts/generate-error-selectors.ts:92-102 | no order of the ABIs and of the items within each of them changes the set of signatures |
| ErrorSelectors.SameName | scripts/generate-error-selectors.ts:64-72 | two entries with the same signature have the same name |
| ErrorSelectors.SameSignatureExactlyWhen | scripts/generate-error-selectors.ts:64-72 | two errors have the same signature exactly when they have the same name and the same parameter types |
| ErrorSelectors.SignatureReadsBack | scripts/generate-error-selectors.ts:66-67 | a signature reads back as name and comma-separated types in parentheses |
| ErrorSelectors.Sort | scripts/generate-error-selectors.ts:135 | a strictly sorted permutation of the entries |
| Chart.ChartState.HandleWheel | dashboard/src/components/Chart.tsx:168-189 | one tick gives a valid window, nested in the old one when zooming in and around it when zooming out, as wide as the integer nearest to 1.15 or 0.85 times the old width or the limit on the way, and with the sample at mouseX / chartW moved by at most one half unless an edge of the data stops it; nothing happens with 10 points or fewer |
| Chart.ZoomNests | dashboard/src/components/Chart.tsx:180-186 | the new window lies in the data with 10 to n points, inside the old one or around it |
| Chart.RangeBounds | dashboard/src/components/Chart.tsx:179-180 | rounding and clamping keep the width within 10 and n and every tick changes it until it reaches its limit |
| Chart.CursorStaysPut | dashboard/src/components/Chart.tsx:182-183 | before clamping the sample under the cursor moves by at most one half |
| Chart.ZoomKeepsCursor | dashboard/src/components/Chart.tsx:182-186 | the same of the zoom itself: more than one half to the right only at the left edge of the data, more than one half to the left only at the right edge |
| Chart.ZoomedWidth | dashboard/src/components/Chart.tsx:179-180 | the new width is the integer nearest to 1.15 or 0.85 times the old one, or the limit of 10 or n that lies before it |
| Chart.AnchorIs | dashboard/src/components/Chart.tsx:174-177 | the anchor is the fraction of the plot width, its nearest edge outside, and the middle without a plot |
| Chart.TicksReachTheEnd | dashboard/src/components/Chart.tsx:168-189 | repeated ticks one way strictly progress until the width is 10 or n, wherever the cursor is |
| Chart.HoverIsNearest | dashboard/src/components/Chart.tsx:156-163 | the hovered index is valid and no sample is drawn nearer to the mouse |
| Chart.HoverInvertsToX | dashboard/src/components/Chart.tsx:108-163 | hovering at toX(i) selects i |
| Chart.SamplesAreSpread | dashboard/src/components/Chart.tsx:108-109 | samples are spread evenly from the left margin to the end of the plot, a single one is in the middle |
| Chart.XLabelIndices | dashboard/src/components/Chart.tsx:137-145 | the label indices strictly increase from 0 to the last sample, each the index nearest to its evenly spaced position |
| Chart.YScale | dashboard/src/components/Chart.tsx:88-106 | the lower bound is 0 or the smallest value, the upper one the largest value above it or one more than the lower bound if there is none, and every value lies between them |
| Chart.ToYInsidePlot | dashboard/src/components/Chart.tsx:110-111 | every value within the bounds is drawn inside the plot, higher values higher up, the bounds on its edges |
| Chart.ToYIsProportional | dashboard/src/components/Chart.tsx:110-111 | equal steps of the value are equal steps on the screen |

## Left out

- Lock files of `proper-lockfile`: the lock is an exclusive resource; whether an error text reads as a lock error (`ELOCKED`) is an arbitrary flag of each failure, so all results hold for every such text.
- JSON text: writing and reading a registry or a PID map are inverse, anything else is unparsable; a registry whose top level is not an object, and a PID file that parses to something else, are not modelled.
- `saveDeploymentResult` beyond its two registry updates (`contracts/scripts/lib/deployment-utils.ts:900-917`): the per-network file has a name of its own and is written without a lock.
- Unlocked readers (`contracts/scripts/lib/deployment-utils.ts:464-472`, `contracts/scripts/deploy-batch.ts:143-154`) appear only as what they can see, in `EveryStepIsAtomic`.
- RegistryCall.WithRegistryLock: a crash of the calling process in the middle of the loop is covered by the runs of `RegistryProtocol`, not by the method, which always finishes.
- PidCall.UpdateOrRemovePid: the same holds for an exit of the calling process; elapsed time is replaced by the number of passes through the loop before the timeout.
- Standby.MutexHolds: assumes that no dependency calls `activateStandby` again before line 119 of `services/coordinator/src/standby-activation-manager.ts` assigns the promise; a getter that did would start a second body. The same holds of the other results about `Standby`.
- LiveFeed.BackfillRepeatsExactlyWhen: the key text made of type and timestamp is taken as the pair, which it determines as long as timestamps are not negative.
- PID reuse by the operating system, symlink checks, unlocked calls of `deletePidFile` from the stop and cleanup scripts.
- Network choice and the waiting time before the first verification attempt (`contracts/scripts/lib/deployment-utils.ts:789-805`), and what the explorer answers, which is an input.
- AddressesReader.FileReadsBack: names and addresses have no quotes and line breaks, as they are printed, and constant names no colon; the fixed text of the header and of the stub is stated by the model and not proved of anything.
- `CONSTANT_NAME_MAP` and the order of object keys in the generated file: the columns are an input in the order in which they are printed, names and addresses as they are printed.
- GeneratedAddresses.ConstantsHaveNoMarker: assumes that network names do not contain the marker line, that type names and the timestamp have no slash and that addresses have no equals sign, as the fixed names, the ISO format and the address validation give.
- ErrorSelectors.OrderDoesNotMatter: says nothing about the contract named as the source of a signature, which is the first ABI that has it and does depend on the order.
- keccak256 is an arbitrary function and a selector a number; fixed-width lower-case hexadecimal sorts as numbers do. The name map written after the table is not modelled.
- `getNestedValue` and the trimming of placeholder paths: lookup is an arbitrary function of the text between the braces, also where a result speaks of all data.
- Floating point: all JavaScript numbers are exact reals or integers, rounding is floor(x + 1/2); numbers that are not finite are absent values.
- Lower-casing of chain names is modelled for ASCII letters; feed ids are a kind and a counter rather than text.
- The rest of the dashboard state (metrics, charts, lag, opportunities), React scheduling, `EventSource`, session storage, SVG paths and number formatting; a chart with a fixed y domain.
- Services other than the standby manager, the Solidity contracts and the trading engine.
