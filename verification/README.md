# Termroom: a verified model of its state machines and protocols

Termroom keeps Workspaces, Terminals, File Runs and Nodes in SQLite, talks to
remote Nodes over a framed WebSocket protocol, and validates untrusted archives
and files. This project models the parts where several operations have to agree
with each other, and proves what they promise together.

* `Terminals`, `TerminalActivity`, `TerminalStore`: the `terminals` table, that is,
  reconciling it with live tmux windows, and activity and acknowledgement revisions;
  `TerminalRuns`: what a reconcile means for File Runs.
* `FileRuns`, `FileRunManager`, `FileRunLaunch`: the lifecycle of a File Run in the
  store, in the manager under interleaving, and launched across the network;
  `FileRunOutcomes`, `FileRunNotices`: what an undisturbed call leaves, and who hears
  of the end of a run.
* `ActivityLog`: the event log, its pruning, and delivery to notification devices.
* `ZipPaths`, `ZipArchives`, `ZipValidation`, `ZipMaterialize` (with `Sorting`):
  archive validation, the second validation of a manifest, and extraction.
* `NodeStream`, `NodeConnection`, `NodeRegistry`: the Core side of the Node protocol.
* `Enrollment`: pairing codes, enrollments and registered Nodes.
* `Utf8Preview`, `FileSearch`: byte windows of UTF-8 files, bounded tree search.
* `SourceFraming`: sending a Workspace manifest under a credit window.
* `SingleFlight`: the shared activity refresh of one provider.

How it is built. The state of a component is a value (`Table`, `Store`,
`Connection`, ...) and each transaction, or each stretch of a coroutine between
two awaits, a function on it. A class holds the same state in fields; its
methods perform the statements in the source's order and are proved to move the
fields exactly as the function moves the value. A run is any sequence of such
steps by any number of callers, and the main results are about every run.
SQLite constraints and cascades are part of the tables; a transaction that
violates a constraint leaves them unchanged.

Some promises turn out to hold only under a condition. These are kept as the
code has them, each with a witness and the exact condition:

* An unchanged shell window may lose its Terminal id
  (`FallbackMayTakeAnUnchangedWindow`). It keeps it exactly if its row is still
  unclaimed when its turn comes (`UnchangedShellKeepsItsRowIff`), and certainly if
  every shell window listed before it has its own row (`NothingNewBeforeKeepsTheRow`).
* A reconcile can end in a constraint error, exactly when a parking name is in use
  as a window at the wrong moment: `NoClash` in `TerminalStore.Reconcile`.
  `ParkingNameInUse` names a table and a report that clash.
* A path such as `./C:x` is accepted once and refused the second time:
  `DriveSurvivesNormalization`; `NormalizingTwice` says exactly when.
* A stream whose owner has begun to close it gets no terminator when the
  connection closes, so a consumer already waiting stays waiting:
  `ClosingOwnerCanMissTheClose`. `CloseReleasesEveryone` says exactly which streams
  are released: those nobody gave up or began to close, and of those given up the
  ones that were already closed then, but not by their owner, as after an overflow.
* A refresh that has finished but is not yet cleared from the registry satisfies
  a later call with a snapshot older than the call: `FinishedTaskCanCover`;
  `CoverageIsFreshIff` says exactly when the coverage is fresh.
* Revoking a Node in the registry before the store bars it does not keep it out.
  The revoke route (termroom/app.py:3221-3224) uses the safe order. The delete
  route (termroom/app.py:3191-3197) does not: it revokes in the registry, awaits the
  closing of the connection found there, and only then removes the computer, so a
  handler that reconnects meanwhile stays registered for a computer that no
  longer exists (`OppositeOrderLeavesItRegistered` from the reachable
  `ReconnectingIsReachable`). `RegisteredAfterBarringIff` says exactly when a revoked or
  removed Node is registered, in every run; no lookup returns it in any case.
* A handler cancelled while it awaits the closing of the connection it replaced
  ends without cleaning up: `CutOffIsLookedUp` reaches a lookup that returns it.
  `CutOffStaysRegistered` says exactly how long it stays registered, and
  `LookupIsLiveAndUsable` that no other handler that has ended is ever looked up.
* A start that the backend carried out can be recorded as failed for a changed
  source (`StartedRunMayFailAsChangedSource`), because the handler for a changed
  source also catches a `ValueError` of the first observation. `LaunchFailsSourceIff`,
  through `Start`, says exactly when a start asks for that record,
  `SourceFailureIsRecordedIff` when it is made, and `SourceFailureIsFinal` that it stands.

Where the code and its own words differ, the code is followed: the comment of
`decode_utf8_preview` speaks of one or two skipped bytes and the code skips up
to three, and `_replace_queue_tail` drops the oldest item, not the last.

## Model

| member | source | states |
|---|---|---|
| `Terminals.WriteKeepsConstraints` | termroom/db.py:1455-1500 | the row-level check made on a write is equivalent to both unique constraints holding afterwards |
| `Terminals.ManagedPass` | termroom/db.py:1393-1416 | after the managed pass every reported role that is stored is matched to its own row, and no row or window is used twice |
| `Terminals.ShellPass` | termroom/db.py:1418-1448 | after the shell pass roles fit, no row is shared, and a shell window is left without a row only when no stored shell row is left |
| `Terminals.MatchingIsSound` | termroom/db.py:1393-1448 | the complete three-phase matching has all of these properties for every table and every list of reported windows |
| `Terminals.ParkedKeepsConstraints` | termroom/db.py:1450-1465 | after the deletions and any number of park updates both unique constraints hold exactly when no row was parked on the window of a row parked later |
| `Terminals.WrittenKeepsConstraints` | termroom/db.py:1467-1510 | after any number of inserts and rewrites they hold exactly when no written window was the name of a row still parked; windows and roles may be swapped |
| `Terminals.NoClashAtAnyStep` | termroom/db.py:1454-1510 | the condition on the whole reconcile is the condition at every single statement |
| `Terminals.CleanHasNoClash` | termroom/db.py:1454-1465 | it holds whenever no stored or reported window begins like a parking name |
| `Terminals.ParkingNameInUse` | termroom/db.py:1454-1465 | a stored pair of shell rows, reported unchanged and matched to itself, that clashes: the second window is the parking name of the first row |
| `Terminals.MatchingGivesPlan` | termroom/db.py:1440-1453 | matching and new ids give every reported window its own row and every claimed row a window |
| `Terminals.StatementsReachReconciled` | termroom/db.py:1450-1510 | the sequence of statements ends in the table that the result is described by |
| `Terminals.ReconciledIsABijection` | termroom/db.py:1383-1516 | afterwards the Workspace's rows are in bijection with the reported windows (name, window, role, managed run) and other Workspaces are untouched |
| `Terminals.ManagedRoleKeepsItsRow` | termroom/db.py:1396-1416 | a stored managed role that is still reported keeps its row id whatever window it is in |
| `Terminals.ShellNeverTakesManagedRow` | termroom/db.py:1418-1448 | no shell window ever takes over a stored managed row |
| `Terminals.NoShellInsertedWhileOneIsDeleted` | termroom/db.py:1418-1453 | a shell row is inserted only if no stored shell row is deleted |
| `Terminals.ReconcileIsIdempotent` | termroom/db.py:1383-1516 | reconciling the same windows again, for any row order, new ids and clock, changes nothing |
| `Terminals.FallbackMayTakeAnUnchangedWindow` | termroom/db.py:1430-1448 | a concrete list in which a new window takes the row of an unchanged one |
| `Terminals.UnchangedShellKeepsItsRowIff` | termroom/db.py:1418-1448 | an unchanged shell window keeps its id exactly if its row was not claimed before its turn, for every table and report |
| `Terminals.NothingNewBeforeKeepsTheRow` | termroom/db.py:1418-1448 | in particular if every shell window listed before it still has its own stored shell row |
| `Terminals.FreeIffUnclaimed` | termroom/db.py:1418-1448 | a row is still free at a window's turn exactly if no managed window and no shell window before it ends in it |
| `Terminals.OtherShellsGoByNameThenAge` | termroom/db.py:1421-1445 | a shell window whose own row is gone or taken gets the oldest free shell row of its name, else the oldest free shell row, and a new row only without any |
| `Terminals.NewManagedWindowAdoptsItsShellRow` | termroom/db.py:1399-1412 | a managed window without a stored row of its role adopts the shell row of its window, and gets a new row exactly without one |
| `TerminalActivity.ReconcileKeepsActivity` | termroom/db.py:1489-1511 | reconciling keeps acknowledgements within activity and lets neither shrink |
| `TerminalActivity.ActivityOnlyGrows` | termroom/db.py:1489-1820 | over every run of reconcile, observe, summary, acknowledge, create, delete and rename, acknowledged never exceeds activity and both only grow for a surviving row |
| `TerminalActivity.FirstSummaryIsRead` | termroom/db.py:1694-1725 | the entries of a first summary contain the Terminal and do not report it unread |
| `TerminalActivity.AckWasRecorded` | termroom/db.py:1694-1820 | every acknowledged revision of every run was recorded by an earlier first summary or acknowledgement |
| `TerminalActivity.UnreadWasReadBefore` | termroom/db.py:1694-1820 | what a summary reports unread was recorded as read earlier in the run, at a smaller revision |
| `TerminalActivity.OnlyAcknowledgingReads` | termroom/db.py:1665-1706 | what was read of a Terminal moves in no run without an acknowledgement of it |
| `TerminalActivity.RowStepsAreExact` | termroom/db.py:165-168 | deleting, creating and renaming touch the rows they name, and a deleted row's read state goes with it |
| `TerminalActivity.ObservedActivityIsUnread` | termroom/db.py:1534-1640 | an observed revision newer than what was read is reported unread by every later summary, until the Terminal goes or is acknowledged |
| `TerminalActivity.AcknowledgeReadsExactlyTheObserved` | termroom/db.py:1784-1820 | acknowledging the cached revision marks the Terminal read, an older one never lowers what was acknowledged |
| `TerminalActivity.AppearingOnceInOrder` | termroom/db.py:1731-1750 | the listed Workspaces are exactly those with an entry, each once, the one with the newest activity first |
| `TerminalActivity.FindOrAdd` | termroom/db.py:1733-1742 | the summary of an entry's Workspace is found, or added with zeros after the others, and every summary stays right |
| `TerminalActivity.CountEntry` | termroom/db.py:1732-1749 | after one more entry every Workspace's counts and latest unread id are again those of its own entries |
| `TerminalActivity.Summarize` | termroom/db.py:1731-1759 | each Workspace with an entry gets the number of its entries, of its unread ones and the newest of those, in order; the global unread count is the sum over Workspaces, and the latest unread is the newest of all |
| `TerminalStores.Normalize` | termroom/db.py:1350-1381 | accepts exactly the reports without empty or repeated windows, unknown roles, repeated managed roles or bad revisions, and keeps their order |
| `TerminalStores.TerminalStore.WriteRow` | termroom/db.py:1455-1510 | a write takes effect exactly when the constraints hold afterwards, and otherwise changes nothing |
| `TerminalStores.TerminalStore.SelectWorkspace` | termroom/db.py:1385-1389 | exactly the Workspace's rows, each once, oldest first |
| `TerminalStores.TerminalStore.Match` | termroom/db.py:1393-1453 | the matching loops compute the specified matching |
| `TerminalStores.TerminalStore.DeleteUnclaimed` | termroom/db.py:1450-1452 | the delete loop removes exactly the unclaimed rows and keeps the constraints |
| `TerminalStores.TerminalStore.ParkMatched` | termroom/db.py:1454-1465 | the parking loop reaches the parked table, and fails exactly when a parking name is the window of a row not yet parked |
| `TerminalStores.TerminalStore.WriteItems` | termroom/db.py:1467-1510 | the rewrite loop reaches the reconciled table, and fails exactly when a written window is the name of a row still parked |
| `TerminalStores.TerminalStore.Rewrite` | termroom/db.py:1450-1510 | delete, park and write as one transaction that takes effect exactly when there is no clash |
| `TerminalStores.TerminalStore.Reconcile` | termroom/db.py:1342-1516 | the whole operation: bad input is refused, a constraint error happens exactly on a clash of parking names, either changes nothing; success returns one row for each reported window with its name, role and run, the age of the row it continues and the newer activity, oldest first, and leaves other Workspaces and what was read alone |
| `TerminalStores.ReconciledShows` | termroom/db.py:1351-1516 | the rows of the reconciled table are the report, window by window: a managed window has its run, a shell window none, an unnamed one is called "shell" |
| `TerminalRuns.ReportedRunIsManaged` | termroom/db.py:1358-1378 | a run reported in a managed window is among the runs the table names |
| `TerminalRuns.ReportedRunSurvivesPruning` | termroom/db.py:2778-2790 | and so no prune drops it |
| `TerminalStores.TerminalStore.CreateTerminal` | termroom/db.py:1287-1340 | inserts exactly when the constraints allow it |
| `TerminalStores.TerminalStore.Observe` | termroom/db.py:1583-1602 | exactly the observed shell rows get the newer of the cached and the observed revision |
| `TerminalStores.TerminalStore.SelectObserved` | termroom/db.py:1604-1616 | the rows returned for one Workspace: its observed shell rows, each once, oldest first |
| `TerminalStores.TerminalStore.ObserveBatch` | termroom/db.py:1529-1616 | the update, and the observed rows of every Workspace that had observations |
| `TerminalStores.TerminalStore.ActivitySummary` | termroom/db.py:1665-1759 | baselines once, lists every Terminal in scope once by falling activity, reports none unread that had no read row, and summarizes each Workspace that has one as above |
| `TerminalStores.TerminalStore.Acknowledge` | termroom/db.py:1761-1820 | an acknowledgement up to the cached revision of a shell Terminal is recorded, never backwards; each error has its cause |
| `ActivityLog.ActivityStore.Insert` | termroom/db.py:2161-2208 | one row per subject and revision, with a sequence never used before |
| `ActivityLog.ActivityStore.CleanupHistory` | termroom/db.py:2722-2752 | prunes old events and devices with their claims, at most every six hours unless forced |
| `ActivityLog.ActivityStore.ClaimNotifications` | termroom/db.py:2911-2980 | one poll: cleanup, then silent registration or a claim of the oldest batch |
| `ActivityLog.RunKeepsGood` | termroom/db.py:2722-2980 | the invariants of claims and deliveries hold over every run of inserts, cleanups and polls |
| `ActivityLog.DeliveryIsOrderedAndUnique` | termroom/db.py:2911-2980 | a device receives notify events in strictly increasing sequence, none twice, over all its registrations |
| `ActivityLog.DeliverySkipsOnlyPrunedEvents` | termroom/db.py:2722-2980 | an eligible event has been received, was pruned, or is still to come after all received ones |
| `ActivityLog.ClaimedSetIsAPrefix` | termroom/db.py:2930-2980 | the claimed events are always a prefix of the eligible surviving ones |
| `ActivityLog.PollDeliversTheOldest` | termroom/db.py:2940-2980 | a poll delivers the oldest unclaimed events, as many as the limit allows, and leaves exactly the others |
| `ActivityLog.LaterEventsAreDelivered` | termroom/db.py:2911-2980 | by time: every notify event inserted after a device registered has been received, is pruned, or is outstanding and newer than all received |
| `ActivityLog.EarlierEventsAreNotDelivered` | termroom/db.py:2923-2938 | nothing inserted before a registration is delivered in it |
| `ActivityLog.ShortPollMissesNothing` | termroom/db.py:2917-2962 | a poll delivers at most the asked number, of one to fifty, and one that delivers fewer leaves nothing behind |
| `ActivityLog.EventIsKeptIff` | termroom/db.py:2722-2752 | an event stays exactly until a cleanup more than thirty days after it occurred |
| `ActivityLog.DeviceStaysRegisteredIff` | termroom/db.py:2722-2752 | a device stays registered exactly until a cleanup more than ninety days after its last poll |
| `ActivityLog.InsertIsRecorded` | termroom/db.py:2183-2208 | an insert is recorded under a new highest sequence unless its subject and revision are there |
| `FileRuns.FileRunStore.Claim` | termroom/db.py:1906-2001 | the exact condition of each outcome, the row a created run starts as, and nothing else changed |
| `FileRuns.FileRunStore.Transition` | termroom/db.py:2086-2159 | a compare-and-set that succeeds exactly if the run is in an expected state, and then assigns exactly the given columns, counts the revision, and writes the event of a run it ends |
| `FileRuns.FileRunStore.SetTerminal` | termroom/db.py:2075-2084 | links a Terminal to an active run only |
| `FileRuns.FileRunStore.Prune` | termroom/db.py:2754-2807 | events and devices first, then the finished runs nothing refers to |
| `FileRuns.StepKeepsGood` | termroom/db.py:1906-2208 | every lawful transaction keeps the invariants below |
| `FileRuns.EveryRunIsGood` | termroom/db.py:1906-2208 | over every interleaving: one active run per Workspace, one run per key, no event for an active run, exactly one for a finished one, and no event without its run |
| `FileRuns.LifecycleOnlyMovesForward` | termroom/db.py:2086-2159 | state rank and revision never decrease, and a terminal run's lifecycle never changes |
| `FileRuns.GoneStaysGone` | termroom/db.py:2754-2807 | a removed run id never comes back |
| `FileRuns.PruningIsSafe` | termroom/db.py:2754-2807 | pruning a reachable state never drops an active run, a managed one, or one that a surviving event names, and such a run is at the revision of its event |
| `FileRuns.EventsOpenTheirRuns` | termroom/db.py:2754-2760 | in every reachable state a File Run event opens its exact result: its run is there, finished, at that revision, unless it went with its Workspace |
| `FileRuns.EventsTellTheOutcome` | termroom/db.py:2161-2208 | in every reachable state the event of a run bears the time of its end, and notifies exactly if the run did not succeed or took at least thirty seconds |
| `FileRuns.EndingIsLogged` | termroom/db.py:2136-2145 | the step that ends a run writes one event of it, the newest of the log, and nothing else to the log |
| `FileRuns.WorkspaceRemovalTakesItsRuns` | termroom/db.py:277-278 | removing a Workspace takes exactly its runs and leaves the event log |
| `FileRuns.TerminalRemovalUnlinks` | termroom/db.py:285 | a removed Terminal row is unlinked from its run and nothing else of any run changes |
| `FileRuns.OrphanedRunsAreGone` | termroom/db.py:2754-2807 | the runs of the exception are gone for good |
| `FileRuns.PruningIsComplete` | termroom/db.py:2754-2807 | an old finished unmanaged run survives pruning exactly when one of its events does |
| `FileRunNotices.ActivityFollows` | termroom/db.py:2086-2208 | the transactions, read as inserts, cleanups and polls, leave exactly the event log of the store |
| `FileRunNotices.NotableEndsAreHeard` | termroom/db.py:2086-2980 | every device registered before a run failed, was stopped, was lost or took half a minute receives its event, unless it is pruned or the next to come |
| `FileRunNotices.OtherEndsAreNotHeard` | termroom/db.py:2168-2174 | a run that succeeded sooner is delivered to nobody |
| `FileRunNotices.EventsAreKeptIff` | termroom/db.py:2722-2790 | its event stays exactly until a prune or a poll's cleanup more than thirty days after the end of the run |
| `FileRunManagers.NeverBelow` | termroom/db.py:2086-2145 | after a compare-and-set to some rank, the run is never below that rank in any later state |
| `FileRunManagers.ObservationIsRecorded` | termroom/file_runs.py:492-531 | an applied observation stores the observed state with the times and codes that state must have |
| `FileRunManagers.ObservedIsReached` | termroom/file_runs.py:492-531 | whatever interleaves, the run is afterwards at least as far as observed |
| `FileRunManagers.SameIdentity` | termroom/file_runs.py:355-380 | a run seen later under the same id still has the key and request it was claimed with |
| `FileRunManagers.FileRunManager.ApplyObservation` | termroom/file_runs.py:492-531 | exactly which transition an observation requests |
| `FileRunManagers.FileRunManager.Reconcile` | termroom/file_runs.py:533-546 | the reported run was stored during the call and is at least as far as the backend said; an invalid or failed answer is raised exactly if a still active run was asked about |
| `FileRunManagers.FileRunManager.Stop` | termroom/file_runs.py:548-590 | force is offered exactly for an active run, after a request was recorded with the time of the first one and nothing else changed |
| `FileRunManagers.FileRunManager.Kill` | termroom/file_runs.py:592-636 | once the backend confirms the kill the reported run is terminal, whatever interleaved: as observed, or stopped by force at this moment |
| `FileRunManagers.ForcedStays` | termroom/file_runs.py:628-636 | a forced run is from then on stopped with the code "forced" at that moment, unless it had ended by itself |
| `FileRunManagers.FileRunManager.Start` | termroom/file_runs.py:317-470 | a backend start is dispatched only after the source was confirmed, and only by the call whose claim created the run; a reported run has the caller's Workspace, key and request; the call asks for a changed source exactly if it created the run and the confirmation, the backend or an invalid first observation said so; without a runnable file, and for an occupied slot, a reused key or a taken id, it fails with that reason |
| `FileRunManagers.CreatedRunHoldsItsKey` | termroom/db.py:1940-1961 | a run holds the key it was created with for as long as it is stored |
| `FileRunManagers.SecondLaunchFindsTheKeyFree` | termroom/db.py:1940-1961 | two launches for one key are of different runs, and the first had left the table before the second was claimed |
| `FileRunManagers.DispatchedTwice` | termroom/file_runs.py:355-421 | the same for two calls of start that both dispatched |
| `FileRunManagers.FileRunManager.Launch` | termroom/file_runs.py:381-470 | dispatch exactly after confirmation, which transition each outcome requests, and that only an undecided remote or an unobserved start leaves the run preparing; the call performs exactly the specified transactions |
| `FileRunManagers.LaunchFailsSourceIff` | termroom/file_runs.py:382-431 | of all outcomes of confirmation, dispatch, first observation and recovery, exactly these ask for a changed source |
| `FileRunManagers.SourceFailureIsRecordedIff` | termroom/db.py:2086-2145 | the request is granted exactly to a run that is still preparing |
| `FileRunManagers.SourceFailureIsFinal` | termroom/db.py:2086-2145 | once granted the record stands in every later state |
| `FileRunManagers.StartedRunMayFailAsChangedSource` | termroom/file_runs.py:420-431 | the lawful run of transactions that links the started Terminal and ends as a changed source |
| `FileRunManagers.FileRunManager.AfterLaunch` | termroom/file_runs.py:420-431 | once started, an invalid first observation of a run still active asks for a changed source |
| `FileRunManagers.FileRunManager.AfterReport` | termroom/file_runs.py:421-470 | what the handlers make of the first observation: an invalid one settles the run as a changed source, a backend error as a failed start, any other error is passed on, and nothing else is performed |
| `FileRunManagers.FileRunManager.Recover` | termroom/file_runs.py:430-470 | which transition a failed start requests, and that it is settled unless a remote backend cannot be asked |
| `FileRunOutcomes.UninterruptedStart` | termroom/file_runs.py:381-470 | for every combination of confirmation, dispatch, first observation and recovery, the state, code, times and Terminal an uninterrupted start leaves, column by column |
| `FileRunOutcomes.UninterruptedReconcile` | termroom/file_runs.py:492-546 | an uninterrupted reconcile leaves exactly the observed state, times and codes |
| `FileRunLaunch.NodeFileRuns.StartFileRun` | termroom/node_agent.py:2977-3210 | a repeated identity replays, conflicts or cannot tell and changes nothing; the first respawns once behind a record of its request, or leaves none |
| `FileRunLaunch.EverySystemIsSound` | termroom/node_agent.py:2977-3210 | invariants of the whole system under retries, lost answers, replays, restarts and other transactions |
| `FileRunLaunch.AtMostOneLaunch` | termroom/node_agent.py:3010-3165 | at most one backend start is sent and at most one pane respawned for a run id |
| `FileRunLaunch.RetryLaunchesNothing` | termroom/file_runs.py:355-380 | starting again with a retained key creates, owns and dispatches nothing |
| `FileRunLaunch.OneLaunchPerKey` | termroom/db.py:1940-1961 | retained runs with one key are one run, dispatched at most once |
| `FileRunLaunch.NodeRunsWhatCoreSent` | termroom/node_agent.py:3065-3165 | what the Node recorded for a respawned run is the request Core sent |
| `FileRunLaunch.FirstStartIsLaunched` | termroom/file_runs.py:317-421 | from any state in which key and slot are free, a start that is delivered undisturbed is dispatched once and respawned once with its request |
| `ZipPaths.AncestorIsStringPrefix` | termroom/archive_safety.py:338-362 | a string prefix followed by a slash is exactly a proper prefix of the components |
| `ZipPaths.NormalizeZipMemberPath` | termroom/archive_safety.py:83-137 | the component loop computes the specified normalization with its errors |
| `ZipPaths.NormalizedShape` | termroom/archive_safety.py:83-137 | an accepted path has clean components, no control characters and no backslash |
| `ZipPaths.NormalizeAcceptsIff` | termroom/archive_safety.py:80-133 | exactly the names that are accepted, in terms of characters and components |
| `ZipPaths.KeptPlaces` | termroom/archive_safety.py:107-117 | the kept components are, in order, those that are neither empty nor a dot |
| `ZipPaths.NormalizingTwice` | termroom/archive_safety.py:83-137 | normalizing again changes nothing, except exactly for a letter and a colon in front, which is refused |
| `ZipPaths.DriveSurvivesNormalization` | termroom/archive_safety.py:95-137 | the exception is real |
| `ZipArchives.StructureIgnoresOrder` | termroom/archive_safety.py:315-366 | the structural verdict does not depend on the order of the records |
| `ZipArchives.Utf8LengthIsEncoded` | termroom/archive_safety.py:241-263 | path limits count the bytes of the UTF-8 encoding |
| `ZipArchives.EntryIffStorable` | termroom/archive_safety.py:235-312 | a record makes an entry exactly if it is named, typed and sized right, no link or device, and not encrypted; the entry is executable exactly if it is a file anyone may execute |
| `ZipArchives.RefusalsHaveTheirReasons` | termroom/archive_safety.py:235-312 | why a record is refused: the first failing check decides the error |
| `ZipArchives.StructureIffSound` | termroom/archive_safety.py:315-375 | the structure is accepted exactly if all records are storable, their paths fit together, and the declared total fits |
| `ZipArchives.HasFileAncestor` | termroom/archive_safety.py:338-352 | the ancestor loop finds a recorded file above a path exactly when there is one |
| `ZipArchives.Admit` | termroom/archive_safety.py:330-366 | the incremental duplicate and conflict tests accept exactly compatible lists |
| `ZipValidation.ReadMember` | termroom/archive_safety.py:383-430 | bytes read never exceed the per-file and total limits; success means the declared size and checksum |
| `ZipValidation.ReadAll` | termroom/archive_safety.py:470-485 | the loop over all members succeeds exactly when every file is intact, with the sum of the sizes |
| `ZipValidation.CheckEntry` | termroom/archive_safety.py:580-625 | one manifest entry passes exactly when it is well-formed, compatible with those before it and within the total |
| `ZipValidation.ValidateStructure` | termroom/archive_safety.py:315-366 | accepts exactly the structurally valid archives |
| `ZipValidation.ValidateArchive` | termroom/archive_safety.py:449-501 | in terms of the records: accepts exactly readable archives of storable records with fitting paths and intact data, and then lists one entry for each record and the declared total |
| `ZipValidation.AcceptedIffSound` | termroom/archive_safety.py:235-502 | the two descriptions of acceptance agree |
| `ZipValidation.ManifestLists` | termroom/archive_safety.py:449-502 | the manifest has exactly one entry for each record, with its path, kind, size and permission |
| `ZipValidation.ValidateManifest` | termroom/archive_safety.py:563-634 | accepts exactly the well-formed manifests |
| `ZipValidation.ManifestAcceptedIff` | termroom/archive_safety.py:563-634 | what an accepted manifest says of each entry and of the whole |
| `ZipValidation.ValidatedManifestIsAccepted` | termroom/archive_safety.py:486-634 | the manifest of an accepted archive passes the second validation exactly when no path starts with a letter and a colon |
| `ZipValidation.ManifestIgnoresRecordOrder` | termroom/archive_safety.py:486-501 | structurally valid archives that differ in record order get the same manifest, order of entries included |
| `ZipValidation.SortForgetsOrder` | termroom/archive_safety.py:677-690 | sorting brings any arrangement of entries with distinct paths into the one order that is compared before materialization |
| `ZipValidation.ManifestIsSorted` | termroom/archive_safety.py:486-501 | entries are listed by depth, directories before files, and alphabetically |
| `ZipValidation.CwdContainsEverything` | termroom/archive_safety.py:433-446 | a named working directory contains every entry |
| `ZipValidation.CwdIsNamedIff` | termroom/archive_safety.py:433-446 | a directory is the working directory exactly if everything is in it and it is not just a file |
| `ZipValidation.CwdIgnoresOrder` | termroom/archive_safety.py:433-446 | the working directory does not depend on entry order |
| `ZipMaterialize.RequiredDirectories` | termroom/archive_safety.py:637-644 | each required directory once, by depth and then alphabetically |
| `ZipMaterialize.ParentComesEarlier` | termroom/archive_safety.py:637-644 | the parent of every required directory comes before it |
| `ZipMaterialize.FileCanBeCreated` | termroom/archive_safety.py:677-715 | a file never lands on a directory or another file, and its directory exists |
| `ZipMaterialize.StagingSink.WriteFile` | termroom/archive_safety.py:504-547 | a drained member is verified before it counts, within the limits even when it fails |
| `ZipMaterialize.MakeDirectories` | termroom/archive_safety.py:664-676 | every directory call is legal and together they make the required set |
| `ZipMaterialize.WriteFiles` | termroom/archive_safety.py:677-715 | every file call is legal, written files are verified, intact archives succeed |
| `ZipMaterialize.Materialize` | termroom/archive_safety.py:647-715 | success leaves exactly the manifest's tree, bytes stay within the total limit, and a validated drive-free manifest succeeds |
| `NodeStreams.EveryStreamIsGood` | termroom/node_core.py:150-189 | the queue is bounded, a terminator comes at most once and last, and loss is exactly one oldest unread item of a full queue |
| `NodeStreams.EnqueuedInOfferedOrder` | termroom/node_core.py:150-189 | what is enqueued is what was fed, in order, all of it while open |
| `NodeStreams.DrainedConsumerSaw` | termroom/node_core.py:91-97 | a consumer that drains a finished stream saw the fed items in order and then the terminator, but for the lost item |
| `NodeStreams.LostIffFullAtTermination` | termroom/node_core.py:185-189 | an item is lost exactly when the queue is full at termination, and it is the oldest unread one |
| `NodeStreams.OpenStreamClosesIff` | termroom/node_core.py:150-189 | an open stream closes exactly by its owner, an end, an error, or an item fed when thirty-two are unread, and what its last item then is |
| `NodeStreams.TakingIsInOrder` | termroom/node_core.py:60-98 | reading takes the oldest item and nothing else |
| `NodeStreams.ReceiveSkipsControls` | termroom/node_core.py:85-89 | a data consumer skips exactly the controls in front of the next chunk or terminator |
| `NodeStreams.NodeStream.ReplaceQueueTail` | termroom/node_core.py:185-189 | the queue operation as written: the head goes when the queue is full |
| `NodeStreams.NodeStream.FeedItem` | termroom/node_core.py:150-170 | feeding, and the overflow that closes the stream and raises |
| `NodeStreams.NodeStream.FeedError` | termroom/node_core.py:179-183 | terminating once |
| `NodeStreams.NodeStream.ReceiveEvent` | termroom/node_core.py:91-97 | taking the oldest item |
| `NodeStreams.NodeStream.Receive` | termroom/node_core.py:85-89 | the loop over controls |
| `NodeConnections.EveryConnectionIsGood` | termroom/node_core.py:192-387 | invariants of pending ids, tombstones and streams under every interleaving |
| `NodeConnections.ResponseCompletesOnlyItsRequest` | termroom/node_core.py:305-323 | a step changes a future only if it is waiting, and only by its own response, cancellation or the shutdown |
| `NodeConnections.FuturesAreFinal` | termroom/node_core.py:213-246 | a future completes at most once |
| `NodeConnections.CallerGetsItsOwnResult` | termroom/node_core.py:213-246 | the value a caller returns was answered under its own id |
| `NodeConnections.AskedIsExpected` | termroom/node_core.py:213-247 | a request asked on an open connection is expected until it is answered, cancelled, fails or the connection closes |
| `NodeConnections.AnswersArrive` | termroom/node_core.py:307-323 | an expected answer, refusal or shutdown completes the request, and through any later steps but its own cancellation or failed send the caller leaves with exactly that |
| `NodeConnections.ExpectedAnswerVerdicts` | termroom/node_core.py:307-323 | a malformed answer is a protocol error that leaves the request expected |
| `NodeConnections.CancelledRequestsLeave` | termroom/node_core.py:237-247 | a cancelled caller leaves at once and its late answer is no error |
| `NodeConnections.LateResponses` | termroom/node_core.py:305-312 | an unexpected response is ignored exactly when its request is among the last 256 cancelled, else a protocol error; nothing changes |
| `NodeConnections.LateFrames` | termroom/node_core.py:365-372 | the same for frames and the last 256 dropped streams |
| `NodeConnections.StreamsCarryWhatWasSent` | termroom/node_core.py:325-372 | a stream has been given the chunks and controls the Node sent under its id, in order: a prefix, and all while it is open and looked up |
| `NodeConnections.NodeEndsTheStream` | termroom/node_core.py:281-302 | when the Node ends an open stream the consumer finds all that was sent and then the end or the error, less the one lost item |
| `NodeConnections.FrameVerdicts` | termroom/node_core.py:325-345 | which frames of a stream are protocol errors or overflows |
| `NodeConnections.OwnStreamSteps` | termroom/node_core.py:249-269 | what opening, reading, giving up and failing to open do to the stream and its registration |
| `NodeConnections.OwnerCloses` | termroom/node_core.py:118-124 | an owner's close shuts the stream and leaves a tombstone |
| `NodeConnections.GivenUpIsReleasedIff` | termroom/node_core.py:126-141 | a stream that was given up is released later exactly if at that moment it was closed, and not by its owner |
| `NodeConnections.CloseReleasesEveryone` | termroom/node_core.py:374-387 | once closed no future waits; a stream nobody gave up is released exactly if its owner had not begun to close it, and a given-up one exactly by its state when it was given up |
| `NodeConnections.ReleasedIffClosedRemotely` | termroom/node_core.py:118-189 | in every state and for every stream, released is the same as closed and not closed locally |
| `NodeConnections.ShutStreamIsNeverReleased` | termroom/node_core.py:118-124 | a locally closed stream never gets another item, in any continuation |
| `NodeConnections.ClosingOwnerCanMissTheClose` | termroom/node_core.py:118-124 | a run in which the closing consumer is left without a terminator |
| `NodeConnections.NodeConnection.BeginRequest` | termroom/node_core.py:213-240 | registering a request, and forgetting it at once on a closed connection |
| `NodeConnections.NodeConnection.EndRequest` | termroom/node_core.py:235-246 | the caller leaves with the outcome of its future and its id is forgotten |
| `NodeConnections.NodeConnection.AbortRequest` | termroom/node_core.py:237-246 | a cancelled caller leaves a tombstone |
| `NodeConnections.NodeConnection.DispatchResponse` | termroom/node_core.py:305-323 | response dispatch with its verdicts |
| `NodeConnections.NodeConnection.DispatchFrame` | termroom/node_core.py:270-372 | stream frame dispatch with its verdicts |
| `NodeConnections.NodeConnection.FailPending` | termroom/node_core.py:379-381 | the loop fails exactly the pending waiting futures |
| `NodeConnections.NodeConnection.FailRegistered` | termroom/node_core.py:382-383 | the loop terminates exactly the registered streams |
| `NodeConnections.NodeConnection.Close` | termroom/node_core.py:374-387 | the shutdown as a whole |
| `NodeRegistry.EveryCoreIsGood` | termroom/node_core.py:430-496 | the registry holds for each Node a handler of that Node that is live or was cut off while replacing another |
| `NodeRegistry.OnlyItsOwnStepsUnregister` | termroom/node_core.py:477-482 | no other handler's cleanup and no store change takes a registered connection away |
| `NodeRegistry.SuccessorStaysRegistered` | termroom/node_core.py:449-482 | a successor stays registered through any cleanup of its predecessors |
| `NodeRegistry.BarredStaysBarred` | termroom/db.py:3299-3315 | a Node revoked in the store and absent from the registry stays absent for ever |
| `NodeRegistry.RevokedIsNeverRegisteredAgain` | termroom/app.py:3214-3224 | after the store revoke and then the registry revoke, with anything in between, no continuation registers the Node |
| `NodeRegistry.LookupIsLiveAndUsable` | termroom/node_core.py:416-428 | a lookup never returns a revoked or removed Node's connection, and its handler is live unless it was cut off |
| `NodeRegistry.ConnectedNodeIsLookedUp` | termroom/node_core.py:416-496 | in every reachable state a Node with a usable computer that connects, authenticates and registers is looked up, until its handler ends or is succeeded, or it is revoked, removed or shut down |
| `NodeRegistry.AuthenticatedHandlersRegister` | termroom/node_core.py:450-468 | an authenticated handler registers exactly if its computer is usable at that moment |
| `NodeRegistry.AuthenticationDecides` | termroom/node_core.py:498-560 | authentication needs a usable computer at its beginning and end, and a valid answer |
| `NodeRegistry.EarlyCancellationEnds` | termroom/node_core.py:430-449 | a handler cancelled before it registers ends and leaves the registry alone |
| `NodeRegistry.EndedHandlersAreNotRegistered` | termroom/node_core.py:477-482 | a handler that ended by its cleanup, or before registering, is registered under no Node |
| `NodeRegistry.CutOffStaysRegistered` | termroom/node_core.py:465-467 | a handler cut off while it replaced another stays registered exactly until a registry revoke, a shutdown or a successful registration of its Node |
| `NodeRegistry.CutOffIsLookedUp` | termroom/node_core.py:430-496 | a named run after which the lookup of a usable Node returns a handler that has ended without cleaning up |
| `NodeRegistry.OppositeOrderLeavesItRegistered` | termroom/app.py:3191-3197 | with the registry revoked first, any authenticated handler registers and stays, whether the Node is then revoked in the store or removed |
| `NodeRegistry.ReconnectingIsReachable` | termroom/app.py:3191-3197 | a reachable state with such a handler beside a registered connection |
| `NodeRegistry.BarredIsRegisteredIff` | termroom/node_core.py:449-496 | a Node without a usable computer is registered later exactly if it is now and no step drops it: a registry revoke, a shutdown, or the cleanup of the registered handler |
| `NodeRegistry.RegisteredAfterBarringIff` | termroom/db.py:3299-3315 | for every run: after a store revoke or a removal the Node is registered exactly if it was at that moment and nothing dropped it since |
| `NodeRegistry.NodeCore.RegisterHandler` | termroom/node_core.py:449-467 | registration after a second look at the store, whom it replaces, and whether it must first close a predecessor |
| `NodeRegistry.NodeCore.UnregisterHandler` | termroom/node_core.py:477-482 | cleanup of one's own connection only |
| `NodeRegistry.NodeCore.Revoke` | termroom/node_core.py:484-489 | the registry revoke |
| `Enrollments.EveryDbIsGood` | termroom/db.py:3018-3258 | code, key and link invariants over all orders of creation, submission, decision, renaming, removal and expiry |
| `Enrollments.CodeGivesOneEnrollment` | termroom/db.py:3096-3155 | a code yields at most one enrollment and is consumed exactly when it has one |
| `Enrollments.NodesHaveDistinctKeys` | termroom/db.py:467-469 | no two registered Nodes share a public key |
| `Enrollments.NothingCascades` | termroom/db.py:3080-3083 | expiry never deletes a code that has an enrollment |
| `Enrollments.DecisionsAreFinal` | termroom/db.py:3190-3258 | a decision never changes, nor does the computer except by its removal |
| `Enrollments.ApprovingAgainReturnsTheSame` | termroom/db.py:3200-3210 | approving again returns the same computer while it exists and changes nothing |
| `Enrollments.RemovedComputerEndsTheEnrollment` | termroom/db.py:3200-3210 | once its computer is removed an enrollment is never approved again |
| `Enrollments.PairingSucceeds` | termroom/db.py:3074-3245 | from the code to the computer: until it expires the code can be redeemed, whatever happens in between, and the approved enrollment becomes a computer with the submitted name and key |
| `Enrollments.SpentCodesEnrollNobody` | termroom/db.py:3110-3118 | a used or expired code enrolls nobody |
| `Enrollments.MakingACodeDropsExpiredOnes` | termroom/db.py:3080-3083 | making a code drops exactly the unused expired ones |
| `Enrollments.EnrollmentStore.SubmitEnrollment` | termroom/db.py:3096-3155 | exactly when a submission is accepted, what it then writes, and the rollback for a bad name |
| `Enrollments.EnrollmentStore.ApproveEnrollment` | termroom/db.py:3190-3245 | the computer an approval writes, and the exact cause of each error |
| `Enrollments.EnrollmentStore.RejectEnrollment` | termroom/db.py:3247-3258 | rejection of a pending enrollment only |
| `Enrollments.EnrollmentStore.RenameComputer` | termroom/db.py:3018-3031 | renaming changes no key and no link |
| `Utf8Preview.ScalarIsEncoded` | termroom/files.py:102-121 | what is read as a code point is its one RFC 3629 encoding: no overlong form and no surrogate |
| `Utf8Preview.DecodeIsSound` | termroom/files.py:120-121 | accepted bytes are encodings followed by at most one cut-off encoding, none when final |
| `Utf8Preview.DecodeIsComplete` | termroom/files.py:120-121 | all such bytes are accepted and give those code points |
| `Utf8Preview.WindowDecodesWholeCodePoints` | termroom/files.py:102-121 | for every valid file and every window, exactly the code points wholly inside, and never a failure |
| `Utf8Preview.DecodeUtf8Preview` | termroom/files.py:102-121 | the skip loop and the decoder |
| `Utf8Preview.DropPartialLine` | termroom/files.py:556-561 | drops up to the first newline, if there is one |
| `Utf8Preview.ReadTextPreview` | termroom/files.py:522-572 | the window of each mode, of 4096 to 1048576 bytes; errors exactly for a zero byte or undecodable text; a valid file shows the whole code points of its window, from the next line on if the window starts inside |
| `FileSearches.FoundIffReachable` | termroom/files.py:323-385 | the recursive meaning of a search is reachability through visible directories |
| `FileSearches.FindableIffReachable` | termroom/files.py:180-222 | what the search reaches is what can be found without links, unreadable, excluded or hidden entries, in terms of names and paths |
| `FileSearches.VisitChild` | termroom/files.py:339-372 | one turn of the inner loop keeps recorded plus outstanding equal to the whole, within the limits |
| `FileSearches.ScanDirectory` | termroom/files.py:336-374 | the inner loop, and the entries and clock readings it costs |
| `FileSearches.Traverse` | termroom/files.py:330-374 | the worklist terminates, and when not truncated is empty |
| `FileSearches.SearchFiles` | termroom/files.py:293-385 | returns only entries a browser can find by a way of visible directories, all of them unless truncated, with exact counts, within its limits and never past the deadline, and truncated only for a reason |
| `FileSearches.NothingFoundIsNoise` | termroom/files.py:360-368 | unless requested, nothing found is noise or reached through a noise directory |
| `SourceFraming.FramesCarryTheLine` | termroom/node_agent.py:3733-3737 | frames of an entry are non-empty, fit, join to the entry, and number as the count formula says |
| `SourceFraming.AllFramesCarryTheLines` | termroom/node_agent.py:3733-3737 | the same for the whole manifest |
| `SourceFraming.CountFrames` | termroom/node_agent.py:1544-1548 | the declared count is the number of frames |
| `SourceFraming.YieldLine` | termroom/node_agent.py:3735-3737 | the generator's inner loop |
| `SourceFraming.YieldAll` | termroom/node_agent.py:3733-3737 | the generator run to its end |
| `SourceFraming.FlowControl.ClaimCredit` | termroom/node_agent.py:3676-3682 | a claim takes one credit, and fails exactly when closed |
| `SourceFraming.FlowControl.GrantCredit` | termroom/node_agent.py:3684-3702 | a grant is accepted only with no credit left and within the window |
| `SourceFraming.EverySenderIsGood` | termroom/node_agent.py:3728-3792 | both mismatch errors are unreachable under any interleaving with closing and granting |
| `SourceFraming.SentIsAPrefix` | termroom/node_agent.py:3739-3749 | sent frames are a prefix of the manifest's, each within the limit, and claims plus credit equal the grants |
| `SourceFraming.CompletedStreamsAreWhole` | termroom/node_agent.py:3750-3763 | a stream that ends normally delivered the concatenated entries |
| `SourceFraming.NothingIsClaimedAfterClose` | termroom/node_agent.py:3676-3708 | no claim succeeds after the flow is closed |
| `SourceFraming.EndedStreamsStayEnded` | termroom/node_agent.py:3728-3775 | a stream that ended sends nothing more and keeps its outcome |
| `SourceFraming.ClosedStreamsStop` | termroom/node_agent.py:3739-3763 | a stream marked closed never completes and sends at most the one frame it was already waiting to send |
| `SourceFraming.ClosedStreamsAreAbandoned` | termroom/node_agent.py:3739-3741 | once its flow is closed the loop ends at its next action, wherever it is |
| `SourceFraming.FailingSendsEndTheStream` | termroom/node_agent.py:3749-3775 | a failing send ends the stream for good, and only while it is sending |
| `SourceFraming.OpenSenderProgresses` | termroom/node_agent.py:3739-3763 | an open sender with credit can always send its next declared frame or finish |
| `SourceFraming.UndisturbedTransferCompletes` | termroom/node_agent.py:3739-3775 | granted one credit after another, every manifest is sent whole and the stream completes |
| `SingleFlight.EveryStateIsGood` | termroom/app.py:1343-1385 | invariants of tasks, registry and callers under every interleaving |
| `SingleFlight.AtMostOneInFlight` | termroom/app.py:1363-1385 | at most one refresh per provider is in flight |
| `SingleFlight.ClearingKeepsNewerTasks` | termroom/app.py:1353-1361 | a registration goes only when its own finished task is cleared |
| `SingleFlight.ReturnedCallIsCovered` | termroom/app.py:1363-1385 | every Workspace of a returned call was covered by a finished task that was registered at the call or created later |
| `SingleFlight.CallsShareOrStart` | termroom/app.py:1343-1385 | a call shares the task in flight, or starts one for exactly what it asks |
| `SingleFlight.FinishedTasksSettleCallers` | termroom/app.py:1363-1385 | a finished task settles what it covers: its owner returns, a waiter goes on with the rest |
| `SingleFlight.CancellingLeavesTheTask` | termroom/app.py:1363-1385 | a cancelled caller leaves its task running |
| `SingleFlight.CoverageIsFreshIff` | termroom/app.py:1363-1374 | the coverage is fresh exactly unless the refresh found had already finished and covers the Workspace |
| `SingleFlight.FinishedTaskCanCover` | termroom/app.py:1353-1374 | a run in which a finished task covers a later call |
| `SingleFlight.ActivityRefreshes.ClearTask` | termroom/app.py:1353-1361 | the closure `clear` |
| `SingleFlight.ActivityRefreshes.Enter` | termroom/app.py:1343-1385 | a call up to its first await |
| `SingleFlight.ActivityRefreshes.Wake` | termroom/app.py:1363-1385 | a caller resumed by its task, up to the next await |

## Left out

- Routes, templates, localisation, cookies, headers and the command line: user interface and plumbing.
- tmux, PTYs, descriptors, memfd sealing, inode checks and fsync: foreign calls; a backend start is one dispatch and its answers are inputs.
- Cryptography, base64, JSON, inflate and CRC: abstract; a ZIP member is a sequence of chunks with a declared size, and the checksum a parameter.
- ZIP magic bytes, filename checks and the content of extra fields: flags of a record. Schema migrations: only the constraints they leave.
- Remote Run transitions: only their events' share of the log is modelled.
- Timestamps are integers of one clock; ISO formatting and parsing are not modelled, and the search deadline is the number of clock readings that still succeed.
- Rate limiters, retry backoff, byte ranges, Workspace session names, the compare-and-set of Workspace commands: easy.
- Validation of the observation records of a batch (types and duplicates) before they reach the table.
- Chunking in `NodeStream.send`, and `finish` with its timeout beyond the dropping of its stream.
- NodeConnections.NodeConnection.Close: streams and futures are values in maps keyed by id, so aliasing between a stream object and its connection is not modelled; the websocket's own closing is left out.
- FileSearches.SearchFiles: the final sort of the result by kind and folded path is not modelled; the result is described as a set with exact counts, and case folding is a predicate on names.
- FileRunManagers.FileRunManager.Start: workspace eligibility, per-Workspace locks and the second inspection appear only as their outcomes; interference of other threads is allowed between any two transactions, which is more than the locks permit.
- The free text of error details in the manager's transitions.
- NodeRegistry.NodeCore.RegisterHandler: the heartbeat and what closing a connection does to its streams are not part of the registry model.
- A file that changes between `stat` and `read` of a preview.
