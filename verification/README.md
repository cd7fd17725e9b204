# Verified model of the cloud mounter applet

A Dafny model of the stateful and algorithmic core of a COSMIC applet that drives `rclone` and
`onedriver`, with proofs of what that core promises. `dafny verify dfyconfig.toml` checks everything.
Paths below are relative to the applet's repository.

## What is modelled

- **Offline mirror coordinator** (`src/bisync_coordinator.rs`, `src/offline_coordinator.rs`).
  `Coordinator` is a step machine: one run of `run_plan` as a program over the durable files (two marker
  files, the state file, dated recovery directories with owner markers on both sides), one atomic step at a
  time, with every answer of the environment as a `Choice`. `CoordinatorLaws` says what one step keeps,
  `CoordinatorRuns` puts any number of connections, processes, crashes and outsiders together and proves the
  invariant of all reachable states; `CoordinatorTheorems`, `CoordinatorTurns`, `CoordinatorRetention` and
  `CoordinatorAdmission` draw the results from it.
  `RunPlan` is the same code in its imperative form, a class that works in place on the files, proved to
  take only paths of the step machine. `BisyncRequest` is the argument rewriting loop, `Retention` the
  cleanup with its counters, `Calendar` the Gregorian calendar behind the string comparison of dates.
- **Cancellable jobs.** `PreloadJobs` (`src/directory_preload.rs`), `RefreshJobs` (`src/rclone_refresh.rs`)
  and `ManualOperation` (`src/offline_coordinator.rs`) interleave starts, monitors, cancels and finishes at
  their await points.
- **Configuration targets.** `Paths` is Rust's reading of Unix paths and `normalize_absolute`;
  `ConfigTargets` is `Config::validate` as far as it concerns directories.
- **OAuth remote lifecycle.** `OAuth`: `NewRemote` and `authenticate` over a shared configuration whose
  commands may do anything to the remote they name.
- **Text and tree algorithms.** `Redact` (`src/process.rs`), `SystemdTokens` (`src/import.rs`), `MountInfo`
  (`src/mounts.rs`), `SftpExclusion` (`src/directory_preload.rs`) and `Inventory`
  (`src/onedrive_prototype.rs`). `Text`, `Words`, `Folds` and `Options` hold what they share.

External commands, clocks, listings and cancellation are nondeterministic: arbitrary inputs or recorded arbitrary
replies in the methods, explicit choices in the step machines. `RunPlan.Host` is given one answer for each of its
steps and must use them in order. A complete successful reply tells the truth about the files it reports.

Where code and documentation differ the model follows the code. The documentation promises to keep recovery
storage for thirty days (`README.md:251`, `Requirements and Specifications.md:580`); the code keeps 32
(`src/bisync_coordinator.rs:30`), which is at least what is promised.

Two properties hold only under a condition, and the exact condition is proved.

- The string test that expires a dated directory is right about every name exactly when the cutoff's year has
  four digits or begins with 9999 (`Calendar.StringTestIsRight`); a clock value that misses the condition is
  given (`Calendar.StringTestCanFail`).
- `cancel_before_unmount` answers Ok both when the registered preload has stopped and when none is registered
  (`src/directory_preload.rs:148-166`). In every reachable state either Ok can be relied on, for all
  generations the connection had at the call and for everything that may follow, exactly when no generation of
  the connection that has left the registry may still send a command (`PreloadJobs.UnmountIsSafeExactly`). A
  caller has that whenever no start of the connection came while one of its generations was registered
  (`PreloadJobs.UnmountIsSafeUnlessReplaced`). A generation replaced by a start while in a command breaks it
  for both answers (`PreloadJobs.ReplacedInCommandIsUnsafe`, `PreloadJobs.ReplacedThenNothingActive`).

Assumptions: nobody but the coordinator writes its marker and state files, apart from the two places of
`src/app.rs` named under "Left out"; ids of refresh jobs are not reused; a command that has returned has stopped
working; nobody else changes the rclone configuration during one `authenticate`; the arguments of a plan contain
neither `--resync` nor `--dry-run`.

## Model

| member | source | states |
|---|---|---|
| CoordinatorLaws.AdvanceIsLawful | src/bisync_coordinator.rs:258-712 | every step leaves the run what its next step relies on, leaves all other connections' markers, states and owned directories alone, and touches only owned or empty directories |
| CoordinatorLaws.AdvanceAchieves | src/bisync_coordinator.rs:518-712 | after every step the trace of the run holds exactly the achievements due at its stage, in order, none skipped |
| CoordinatorLaws.PrepareKeepsOwners | src/bisync_coordinator.rs:819-969 | preparation never changes a marker naming another connection, marks only its own or an empty directory, and on success both dated directories name this connection |
| CoordinatorLaws.PrepareAchieves | src/bisync_coordinator.rs:819-930 | a successful preparation counts as one achievement and nothing else does |
| CoordinatorLaws.FullIsScript | src/bisync_coordinator.rs:518-712 | what the stages of a synchronization add up to is the script of its mode, written out mode by mode: binding, anchor, recovery, pass, second pass and check, anchors and checksums |
| CoordinatorLaws.PreviewIsScript | src/bisync_coordinator.rs:541-598 | the same for the two previews: only a dry run |
| CoordinatorLaws.SoundIsStable | src/bisync_coordinator.rs:1427-1478 | what one run relies on survives every step of a run of another connection |
| CoordinatorRuns.AlwaysInv | src/bisync_coordinator.rs:258-712 | in every state reachable by any interleaving, with crashes and outsiders, locks are exclusive and every live run is on course |
| CoordinatorTheorems.SyncMarkerIsEarned | src/bisync_coordinator.rs:600-706 | a sync marker exists only if one initial synchronization of that work directory had followed its whole script: the lock, its identity check, recovery preparation, the resync, the second pass and check when planned, and the anchor and checksum checks, in that order |
| CoordinatorTheorems.SyncMarkerStays | src/bisync_coordinator.rs:382-402 | a sync marker once present survives any further actions |
| CoordinatorTheorems.ResyncIsRehearsed | src/bisync_coordinator.rs:541-627 | every real resync belongs to an initial synchronization, is the only one of that run, follows a completed dry-run resync of the same work directory, and never follows the sync marker |
| CoordinatorTheorems.FinishedSyncSentOneResync | src/bisync_coordinator.rs:600-706 | a run that wrote the sync marker sent exactly one real resync in the whole trace, and sent it before the marker |
| CoordinatorTheorems.AdvanceExplained | src/bisync_coordinator.rs:258-712 | which stage and mode each logged entry and each marker change of a step comes from |
| CoordinatorTurns.RecoveryDirectoriesStayOwned | src/bisync_coordinator.rs:819-969 | in every reachable state a marker naming a connection changes only by a step of that connection, and a step marks, backs up into, purges or removes only its own directories or empty ones it is marking, so an unreadable non-empty one is never claimed |
| CoordinatorTurns.PreviewsWriteNothing | src/bisync_coordinator.rs:541-598 | over all runs neither kind of preview, initial or ordinary, sends a mkdir, copyto, purge or real exchange or writes an owner or sync marker |
| CoordinatorRetention.RetentionNeverFailsTheRun | src/bisync_coordinator.rs:518-712 | over all runs, every transaction that succeeds has the whole script of its mode behind it, a scheduled or manual synchronization fails only while part of it is missing, and retention acts only after all of it; so no transaction but an initial synchronization fails after an act of retention |
| CoordinatorRetention.RetentionRemovesOnlyOldNames | src/bisync_coordinator.rs:982-1011 | over all runs and for every clock, each directory that is purged or removed is named by a strict date more than 32 days before the day of that run's clock and lies below the recovery root of that run's plan |
| CoordinatorRetention.LocalSweepAgrees | src/bisync_coordinator.rs:1009-1062 | at every look of a run at a local directory the sweep with counters keeps, removes or tries to remove it exactly when the step machine does |
| CoordinatorRetention.RemoteSweepAgrees | src/bisync_coordinator.rs:1097-1142 | the same for remote entries: the marker is read and the directory purged exactly when the step machine sends that |
| CoordinatorTurns.RunsTakeTurns | src/bisync_coordinator.rs:1427-1478 | entries of two runs of one connection never interleave in any reachable trace |
| CoordinatorAdmission.EntersExactly | src/bisync_coordinator.rs:1427-1478 | in every reachable state a run that tries the lock enters exactly when no run of its connection is under way, and no file changes |
| CoordinatorAdmission.FreeConnectionsMayRun | src/bisync_coordinator.rs:258-275 | in every reachable state a new run of any connection gets the lock exactly when no run of it is under way |
| CoordinatorAdmission.EndsFreeTheLock | src/bisync_coordinator.rs:1427-1478 | a run that returns or crashes leaves its connection free and every file as it is |
| CoordinatorAdmission.ModesFitHistory | src/bisync_coordinator.rs:382-402 | over all runs: an initial preview enters its transaction only before an initial synchronization of its work directory finished, an initial synchronization only then and after a completed rehearsal, every other mode only after one finished |
| CoordinatorAdmission.FailuresEndTheRun | src/bisync_coordinator.rs:258-712 | at every step whose failure is not tolerated, a failing answer ends the run: before the transaction it returns with an error, inside it the failed state is written next |
| CoordinatorAdmission.PreparationSucceedsExactly | src/bisync_coordinator.rs:819-969 | exactly which answers make a preparation succeed, on both sides, and the commands and writes of one that does, with the listing only when no owner was read |
| CoordinatorAdmission.PreparationKeepsContents | src/bisync_coordinator.rs:819-930 | preparation loses no directory and nothing inside one, and adds nothing but markers, except what an interrupted local write leaves |
| CoordinatorAdmission.ExchangeFillsDated | src/bisync_coordinator.rs:714-738 | a real exchange may fill the two dated directories of its day and no other; a dry run changes nothing |
| CoordinatorAdmission.PurgesLeave | src/bisync_coordinator.rs:1128-1142 | a purge touches its own directory alone, removes it when it succeeds, and never leaves another owner's marker |
| CoordinatorAdmission.FailedPurgesLeaveAnyPart | src/bisync_coordinator.rs:1128-1142 | whatever part of a directory a failed purge may leave is among the model's answers |
| CoordinatorAdmission.InterruptedLocally | src/bisync_coordinator.rs:826-842 | an interrupted local write can leave a file beside the marker |
| CoordinatorAdmission.InterruptedMkdir | src/bisync_coordinator.rs:844-857 | a failed mkdir can leave the directory |
| CoordinatorAdmission.InterruptedUpload | src/bisync_coordinator.rs:907-929 | a failed upload of the marker can leave this connection's own, an empty or a damaged one |
| CoordinatorTurns.RunningIsLeftByCrashOrLostWrite | src/bisync_coordinator.rs:305-349 | a run in its transaction wrote the last state of its connection; a state file says running without a live transaction only when that connection's last state write is a running state whose own run then crashed or lost its final write |
| CoordinatorTurns.LeftRunningExactly | src/bisync_coordinator.rs:305-349 | both directions: such a write and such an end leave the connection running, and nothing else does |
| CoordinatorTurns.LeftoverStopsLaterRuns | src/bisync_coordinator.rs:305-312 | such a leftover stays through any further actions, during which the connection logs only locking, identity checks, crashes and failed returns |
| CoordinatorTurns.ReturnsAreTruthful | src/bisync_coordinator.rs:325-349 | a run returns Ok exactly when its transaction and its final state write both succeeded |
| RunPlan.Host.constructor | src/bisync_coordinator.rs:258-275 | a run that holds its lock starts at the first stage of the step machine |
| RunPlan.Host.RunPlan | src/bisync_coordinator.rs:258-349 | for every stream of answers the imperative code ends at the return stage with its own result, having taken exactly the steps of the machine for these answers; Ok means the state says succeeded and the markers changed as the mode demands, that retention went through both listings as far as the token allows, and a recorded running operation leaves every file alone |
| RunPlan.Host.Enter | src/bisync_coordinator.rs:276-324 | what is refused before the transaction changes no file; what is admitted has only written the running state |
| RunPlan.Host.ValidateModeMarkers | src/bisync_coordinator.rs:382-402 | a run is admitted exactly when its directory is marked as synchronized for the modes that need it and not for the initial ones, and an initial synchronization has its preview marker |
| RunPlan.Host.PrepareInputs | src/bisync_coordinator.rs:295-312 | going on implies that no operation of this connection is recorded as running |
| RunPlan.Host.WriteFinal | src/bisync_coordinator.rs:325-349 | which of the three final states is written for which result, and that a failed write changes nothing |
| RunPlan.Host.RunTransaction | src/bisync_coordinator.rs:518-712 | the transaction ends at the ending stage with its own result and changes the markers as its mode demands; neither preview changes any recovery directory |
| RunPlan.Host.RunPreview | src/bisync_coordinator.rs:541-598 | the preview branch follows the machine to the end and changes no file but the preview marker of an initial one |
| RunPlan.Host.FinishPreview | src/bisync_coordinator.rs:553-597 | exactly when a finished rehearsal counts, and that its marker is written only then |
| RunPlan.Host.Converge | src/bisync_coordinator.rs:628-672 | the second pass, ordinary after an initial synchronization, and the check lead to the verified stage or end the run |
| RunPlan.Host.CheckAnchors | src/bisync_coordinator.rs:673-697 | local anchor, remote anchor and checksum check, in that order, for OneDrive initial and manual synchronization only |
| RunPlan.Host.WriteMarkers | src/bisync_coordinator.rs:700-706 | success leaves the sync marker present and the preview marker gone; a failure keeps the preview marker |
| RunPlan.Host.ValidateLocalOwner | src/bisync_coordinator.rs:932-969 | accepts exactly a readable marker of this connection or a readable empty directory |
| RunPlan.Host.PrepareLocalDirectory | src/bisync_coordinator.rs:826-842 | the local half of preparation has exactly the result, files and log of its specification |
| RunPlan.Host.PrepareRemoteDirectory | src/bisync_coordinator.rs:844-930 | the remote half has exactly the result, files and command log of its specification |
| RunPlan.Host.PrepareRecovery | src/bisync_coordinator.rs:819-930 | success leads to the recovered stage, failure ends the transaction |
| RunPlan.Host.CleanLocalEntry | src/bisync_coordinator.rs:1009-1058 | a local directory is removed exactly when its name is a strict date before the cutoff and its marker can be read and names this connection; otherwise nothing changes, and no step is taken for a name that is not outdated |
| RunPlan.Host.CleanRemoteEntry | src/bisync_coordinator.rs:1091-1142 | a remote directory is purged exactly when its name is a strict date before the cutoff and its marker can be read and names this connection; otherwise nothing changes |
| RunPlan.Host.CleanupRetention | src/bisync_coordinator.rs:971-1145 | for any listings and any token, every entry is looked at, local ones first, up to the first read of the token that finds it cancelled, and the sweep always comes back to the stage after retention |
| RunPlan.NextIsMove | src/bisync_coordinator.rs:258-349 | one step of the code's path is one move of the whole system, with the same files and the same log |
| RunPlan.PathIsARun | src/bisync_coordinator.rs:258-349 | every path of the code is a run of the whole system with the same files and log, so the theorems on runs apply to it |
| BisyncRequest.DateBackups | src/bisync_coordinator.rs:714-738 | the index loop replaces every backup directory by its dated one and copies the rest, also for a flag at the very end |
| BisyncRequest.Build | src/bisync_coordinator.rs:714-764 | the whole argument list, with the options of each of the five modes written out |
| BisyncRequest.FlagsFollowMode | src/bisync_coordinator.rs:739-745 | `--resync` is sent exactly by an initial preview or synchronization and `--dry-run` exactly by an initial or ordinary preview |
| BisyncRequest.BackupsAreDated | src/bisync_coordinator.rs:722-734 | every backup flag in the request is followed by this day's directory on its own side |
| BisyncRequest.DatedDirectories | src/bisync_coordinator.rs:722-729 | which directories those are: below the recovery path without its trailing slashes, and joined to the local recovery directory |
| BisyncRequest.OthersAreKept | src/bisync_coordinator.rs:720-738 | all arguments but the flag pairs are kept in order |
| Retention.Cleanup.CleanLocal | src/bisync_coordinator.rs:991-1062 | the local counters and removals are those of the entries looked at, up to cancellation |
| Retention.Cleanup.CleanRemote | src/bisync_coordinator.rs:1097-1143 | the remote counters and commands are those of the lines looked at, up to cancellation |
| Retention.Cleanup.Run | src/bisync_coordinator.rs:971-1145 | how far each half got, what a failed listing or an early cancellation leaves out; the sweep stops at the first look at the token that finds it cancelled, after one look per entry when it does not; not cancelled, the expired entries of each half number as many as its removals sent and its foreign and unverified entries, and the removals sent as many as the removed and the failed |
| Retention.LocalFateIs | src/bisync_coordinator.rs:1009-1060 | which local entries are left alone, unverified, foreign, removed or failed |
| Retention.RemoteFateIs | src/bisync_coordinator.rs:1091-1142 | the same for remote entries, and exactly which of them have their marker read and are purged |
| Retention.LocalConservation | src/bisync_coordinator.rs:1011-1060 | every expired local candidate is removed, foreign, unverified or failed, and counted once |
| Retention.RemoteConservation | src/bisync_coordinator.rs:1097-1143 | the same for the remote side |
| Retention.PurgesAreCounted | src/bisync_coordinator.rs:1128-1142 | the purges sent number as many as the removed and the failed entries |
| Retention.LocalRemovedAreOwnedAndExpired | src/bisync_coordinator.rs:1011-1060 | a name is removed exactly when it is a strict date before the cutoff with a readable marker of this connection and removal works |
| Retention.PurgedAreOwnedAndExpired | src/bisync_coordinator.rs:1097-1143 | every purge directly follows the read of that directory's marker, completely read and naming this connection |
| Calendar.StrictDayIsPrintedDate | src/bisync_coordinator.rs:1169-1199 | exactly the printed Gregorian dates of years 0000 to 9999 are accepted |
| Calendar.PrintedIsStrict | src/bisync_coordinator.rs:1169-1199 | every such printed date is accepted and reads back to itself |
| Calendar.NextDateIsNextDay | src/bisync_coordinator.rs:1235-1247 | the day number grows by one from a date to the next |
| Calendar.DayNumberOfDate | src/bisync_coordinator.rs:1235-1247 | the date of a day number has that day number |
| Calendar.MonthsBegin | src/bisync_coordinator.rs:1191-1198 | the days of a year before each month, for leap and other years |
| Calendar.OrderIsDayOrder | src/bisync_coordinator.rs:1169-1199 | calendar order of dates is day-number order |
| Calendar.PrintedOrderIsCalendarOrder | src/bisync_coordinator.rs:1009-1011 | string order of printed dates is calendar order |
| Calendar.ExpiredMeansOlderThanRetention | src/bisync_coordinator.rs:982-1011 | an accepted name is before the cutoff exactly when its day is more than 32 days before today |
| Calendar.StringTestIsRight | src/bisync_coordinator.rs:1222-1233 | for which cutoff years the string test is right about every name, both directions |
| Calendar.StringTestCanFail | src/bisync_coordinator.rs:1222-1233 | a clock whose cutoff is in the year 10000, where the test keeps a name that is more than 32 days old |
| Calendar.EpochDay | src/bisync_coordinator.rs:1235-1247 | the day of a clock value: 1 January 1970 and one more every 86,400 seconds, by the closed form of the leap rule |
| PreloadJobs.ActivePreloads.Start | src/directory_preload.rs:60-98 | a start registers a fresh generation, cancels the one it replaces, and a zero timeout changes nothing |
| PreloadJobs.ActivePreloads.CurrentControl | src/directory_preload.rs:459-466 | the control is found exactly while its own generation is registered for the connection |
| PreloadJobs.ActivePreloads.Finish | src/directory_preload.rs:468-478 | the generation is marked done and unregistered, and no other generation is unregistered |
| PreloadJobs.AlwaysInv | src/directory_preload.rs:60-280 | registry, monitors and callers agree in every reachable state |
| PreloadJobs.CancelCancels | src/directory_preload.rs:154-183 | in every reachable state each call past its first step has cancelled the generation it read; every answer `stopped` or `still stopping` leaves that generation cancelled for good, and a stopped one out of the registry for good |
| PreloadJobs.CallsAreAnswered | src/directory_preload.rs:154-183 | in every reachable state a call's own step, or its timeout while it waits, brings it nearer to its answer and nobody sets it back; a wait that is over before `done` is set is answered `still stopping` |
| PreloadJobs.MonitorsEnd | src/directory_preload.rs:184-280 | in every reachable state a monitor can come to its end by its own steps, on which it sets `done` and then unregisters |
| PreloadJobs.RegisteredUntilDoneOrReplaced | src/directory_preload.rs:468-478 | a generation leaves the registry only when it is done or replaced, so a stale finish never unregisters a newer one |
| PreloadJobs.UnregisteredIsCancelledOrDone | src/directory_preload.rs:60-96 | every started generation that is not registered is cancelled or done |
| PreloadJobs.StoppedMeansNoCommands | src/directory_preload.rs:154-280 | when a cancel reports a generation stopped, its own monitor set done first, none of its commands is outstanding and none is ever sent again |
| PreloadJobs.AlwaysTraced | src/directory_preload.rs:184-280 | a command is sent only by a generation that passed the sleep gate and is not done, done is set only with no command outstanding, and `still stopping` is answered only while it is not set |
| PreloadJobs.UnregisteredIsDoneOrReplaced | src/directory_preload.rs:60-96 | every started generation that is not registered is done, unless a start of its connection replaced it while it was registered |
| PreloadJobs.UnreplacedIsOver | src/directory_preload.rs:60-280 | a generation that left the registry and was not replaced is done, has no command outstanding, and never sends or resolves one again, whatever happens next |
| PreloadJobs.UnmountIsSafeExactly | src/directory_preload.rs:148-183 | in every reachable state, every Ok that a cancel called now can get, stopped or nothing active, guarantees that no command is outstanding, or ever sent again, of any generation that the connection had at the call, if and only if no generation that has left the registry is live |
| PreloadJobs.UnmountIsSafeUnlessReplaced | src/directory_preload.rs:148-183 | a connection that is never started while one of its generations is registered can rely on every Ok |
| PreloadJobs.OrphanOutlivesAnswer | src/directory_preload.rs:148-183 | every live generation that has left the registry can outlive either Ok: a continuation is built in which the answer comes while it has a command outstanding or before it sends one |
| PreloadJobs.ReplacedInCommandIsUnsafe | src/directory_preload.rs:60-96 | in every reachable state, a start that replaces a generation in a command makes the next Ok unreliable while the newer one is registered |
| PreloadJobs.ReplacedThenNothingActive | src/directory_preload.rs:148-183 | and so is the Ok given later, when the newer generation has finished and nothing is registered |
| PreloadJobs.SupersededMayStillRun | src/directory_preload.rs:66-84 | both kinds of unreliable Ok occur in reachable states |
| RefreshJobs.ParseStatus | src/rclone_refresh.rs:382-434 | exactly which replies are accepted, for the expected job and execute id, and which of them mean finished and success without any provider error |
| RefreshJobs.ParseStart | src/rclone_refresh.rs:355-374 | exactly which replies name a submitted job, and the job and execute id read from them |
| RefreshJobs.Refreshes.BeginCancel | src/rclone_refresh.rs:264-275 | a cancel marks the registered control and reads the job it shows at that moment |
| RefreshJobs.Refreshes.CancelWith | src/rclone_refresh.rs:264-285 | the registered control is cancelled, the job it shows is told to stop, and it is unregistered |
| RefreshJobs.Refreshes.Unregister | src/rclone_refresh.rs:345-353 | only this control leaves the registry, and only while it is the registered one |
| RefreshJobs.Refreshes.Interfere | src/rclone_refresh.rs:264-285 | any number of other tasks between two steps leaves what the monitor tracks intact |
| RefreshJobs.Refreshes.Poll | src/rclone_refresh.rs:176-230 | the verdict for every answer, clock, cancel and sleep gate; giving up by the deadline or a cancel ends with a stop sent to the job being polled |
| RefreshJobs.Refreshes.SubmitRecursive | src/rclone_refresh.rs:205-228 | exactly when the recursive job is submitted and what comes of it; a job of another process, or taken up too late, is told to stop |
| RefreshJobs.Refreshes.Accept | src/rclone_refresh.rs:216-228 | an accepted job is polled only if it is of the same process and the control is registered and not cancelled, and else told to stop |
| RefreshJobs.Refreshes.Monitor | src/rclone_refresh.rs:156-262 | at most one recursive submission, earned by the root's success before the deadline; completion means both jobs succeeded under one execute id; every cancel read the job being polled and every stop is sent to it; giving up leaves no job running that was taken up; every exit leaves the control unregistered; while no other task acts the outcome is the one that the answers determine |
| ManualOperation.NobodyStaysAsleep | src/offline_coordinator.rs:45-61 | after finish every caller's own step brings it nearer to returning and no other step sets it back |
| ManualOperation.AnswerIsWhatWasVisible | src/offline_coordinator.rs:50-61 | a call returns true exactly when completion was visible at its last read |
| ManualOperation.CompletionIsSeenAtOnce | src/offline_coordinator.rs:50-58 | once finished, a call at either of its reads before the wait returns true in one step |
| ManualOperation.FalseOnlyAfterTimeout | src/offline_coordinator.rs:50-61 | in every interleaving a call returns false only if its own wait timed out |
| ManualOperation.FinishAndTimeoutEnd | src/offline_coordinator.rs:45-61 | finish completes at its first step and has notified after its second; a wait that times out returns what is visible then |
| ManualOperation.CallsCancel | src/offline_coordinator.rs:50-51 | anyone may call at any time, and the first thing a call does is to cancel the operation |
| ManualOperation.LaterCallsSucceed | src/offline_coordinator.rs:50-61 | after completion every later call returns true |
| Paths.NormalizeAbsolute | src/config.rs:1007-1025 | the push and pop loop computes where the component list leads from the root |
| Paths.NormalizedIsNone | src/config.rs:1007-1025 | None exactly for a relative path or one with a prefix that climbs above the root |
| Paths.NormalizeIsIdempotent | src/config.rs:1007-1025 | normalizing the rendered result gives the result again |
| Paths.RenderedIsNormal | src/config.rs:1007-1025 | every location, rendered and normalized, is itself |
| Paths.NormalizedStep | src/config.rs:1007-1025 | what appending an empty, dot, double-dot or named piece to an absolute path does |
| Paths.OverlapMeansSharedPath | src/config.rs:1027-1029 | the prefix test holds exactly when some absolute path lies inside both trees |
| ConfigTargets.UnsafeMeansRootOrBelowSystem | src/config.rs:1031-1049 | unsafe means the root itself or anything at or below a system directory |
| ConfigTargets.ValidateOnlineMount | src/config.rs:956-972 | a cache directory is refused exactly when it is not well formed, overlaps the local tree, or is unsafe |
| ConfigTargets.ValidateOfflineMirror | src/config.rs:974-991 | the same for a recovery directory, and a zero interval |
| ConfigTargets.ValidateConnections | src/config.rs:725-858 | problems and comparison targets of all connections in order, with duplicates of ids and the early `continue` |
| ConfigTargets.ComparePairs | src/config.rs:860-882 | the pairwise loop reports exactly the conflicting pairs of its rows |
| ConfigTargets.Validate | src/config.rs:674-889 | the problem list of a document; Ok exactly when it is empty |
| ConfigTargets.PairReportIs | src/config.rs:860-882 | a conflict is reported exactly when some ordered pair of targets conflicts that way |
| ConfigTargets.EveryClashIsReported | src/config.rs:860-882 | every clash between two connections is reported with ids and paths, whatever else is wrong |
| ConfigTargets.AcceptedExactlyWhenApart | src/config.rs:674-889 | Ok exactly when ids are unique, every directory is well formed and safe, no absolute path lies in two local trees, in an own side directory and local tree, or in two compared trees once either side is a OneDrive mirror run by rclone |
| ConfigTargets.EveryProblemHasItsCause | src/config.rs:674-889 | a problem of any kind is reported exactly when a finding, a directory, an interval, a repeated id or a pair of trees in the document causes it, with that connection's ids and paths |
| SftpExclusion.ExcludedPaths | src/directory_preload.rs:128-138 | the loop returns the local root alone when the remote is inside a system directory, else the parts below it |
| SftpExclusion.SftpExcludedPaths | src/directory_preload.rs:117-139 | which paths are excluded for any provider and any subpath, `..` included |
| SftpExclusion.NothingBelowParents | src/directory_preload.rs:128-137 | under a remote path with `..` in it nothing below it is excluded |
| SftpExclusion.ExcludedExactlySystem | src/directory_preload.rs:117-139 | a relative path is excluded exactly when the remote path it stands for is in a system directory |
| SftpExclusion.TraversalArguments | src/directory_preload.rs:398-457 | the argument list handed to find |
| SftpExclusion.EscapedMatchesOnlyItself | src/directory_preload.rs:425-440 | an escaped path used as a pattern matches itself and no other text |
| SftpExclusion.TestsAreEqualities | src/directory_preload.rs:418-446 | the alternatives hold of a printed path exactly when it is one of the excluded texts |
| SftpExclusion.UnderIsPrinted | src/directory_preload.rs:128-137 | the excluded texts are spelled as find prints these directories |
| SftpExclusion.TraversalSkipsExactlySystem | src/directory_preload.rs:117-446 | end to end: with the argument list built for it, find stops above a relative path exactly when that path is in /proc, /sys or /dev on the server |
| OAuth.NewRemote.Execute | src/microsoft_oauth.rs:186-222 | nothing is sent when cancelled or out of budget, else exactly one command is counted and sent and its reply judged |
| OAuth.NewRemote.CreateRemote | src/microsoft_oauth.rs:224-234 | creation runs at most once |
| OAuth.NewRemote.ContinueWith | src/microsoft_oauth.rs:236-256 | nothing is sent before creation or without a state |
| OAuth.NewRemote.Rollback | src/microsoft_oauth.rs:258-272 | success means the name is free; it fails exactly when the lookup or the deletion did; an unstarted one does nothing |
| OAuth.RemoteNamesAre | src/microsoft_oauth.rs:96-106 | exactly which names a new remote may have |
| OAuth.Prepare | src/microsoft_oauth.rs:144-161 | the capability is given exactly for a valid name that a successful lookup does not find, and nothing is changed |
| OAuth.Judged | src/microsoft_oauth.rs:205-221 | exactly which replies are accepted |
| OAuth.FindAnswer | src/onedrive.rs:540-561 | the answer to each question, or the reason there is none |
| OAuth.AnswerQuestion | src/onedrive.rs:540-568 | the answer goes out with the state of the reply that asked; a drive is the provider's own and one of those offered, and is confirmed only after it was chosen |
| OAuth.Converse | src/onedrive.rs:503-571 | the fall-through after the loop is unreachable, the commands stay within the budget, Ok means that the conversation was over and all three checks of this remote passed after it, and every failure has its cause in the replies, the question asked, the budget or the token |
| OAuth.Verify | src/onedrive.rs:519-539 | the checks run in order up to the first that fails, and Ok means all three passed |
| OAuth.Authenticate | src/onedrive.rs:480-580 | Ok exactly when the new remote passed its three checks after its last command; a failed check fails the run and every other failure has its cause among the entries; CleanupRequired means exactly that the rollback failed; an existing remote and all other names stay as they were, failure other than CleanupRequired restores the configuration, at most twelve configuration commands, each fitting the replies before it, and one final deletion |
| OAuth.UndoIsLedger | src/microsoft_oauth.rs:258-272 | rolling back adds at most one deletion, last and only after a configuration command |
| Redact.RedactPlainText | src/process.rs:906-945 | the carried-over pass equals hiding token by token with every whitespace run in place |
| Redact.LayoutIsKept | src/process.rs:906-945 | every whitespace run and the number of tokens survive |
| Redact.RedactIsIdempotent | src/process.rs:906-976 | redacting redacted text changes nothing, for every string |
| Redact.ValuesAreHidden | src/process.rs:906-976 | every token by its position in the text: a value within reach of a word that announces it is hidden, two after `authorization:`, one after the other words; of all others exactly URLs, bearer strings and the values of sensitive keys go |
| Redact.NoSecretSurvives | src/process.rs:906-976 | redacted text read again holds no value after a trigger, no URL, bearer string or value of a sensitive key |
| Redact.ShownTwice | src/process.rs:947-976 | one token keeps its result and its effect on the following tokens when it is redacted again |
| Redact.RedactJsonValue | src/process.rs:865-904 | the loops over fields and items compute the redacted value |
| Redact.JsonKeepsShape | src/process.rs:865-904 | keys, array lengths and nesting survive, every secret field holds the marker, every string outside them is redacted token by token, and other values stay |
| Redact.JsonIsIdempotent | src/process.rs:865-904 | redacting a redacted value changes nothing |
| SystemdTokens.TokenizeSystemdExec | src/import.rs:517-557 | the character loop with its four variables computes the scan of the line |
| SystemdTokens.QuotedLineRoundTrip | src/import.rs:517-557 | quoting, escaping and joining any non-empty words without NUL, CR or LF is undone exactly |
| SystemdTokens.JoinedLines | src/import.rs:517-557 | two accepted lines joined by a blank give the words of both in order |
| SystemdTokens.RejectedExactly | src/import.rs:541-556 | a line is refused exactly when it ends inside a quote or escape or keeps a forbidden character; accepted words hold exactly the kept characters in order |
| SystemdTokens.WordsAreGroups | src/import.rs:517-557 | where words begin and end: they are the groups of kept characters between blanks outside quotes and escapes |
| SystemdTokens.WordsAreNotEmpty | src/import.rs:517-557 | no empty word is returned |
| MountInfo.PassesAreOneDecoding | src/mounts.rs:96-102 | the four replace passes equal one left-to-right decoding on every text |
| MountInfo.DecodeEscaped | src/mounts.rs:96-102 | decoding undoes the kernel's escaping |
| MountInfo.CodesAreOctal | src/mounts.rs:96-102 | the four escapes are the octal codes of blank, tab, line feed and backslash |
| MountInfo.SeparatorFound | src/mounts.rs:77-80 | the separator found is the one between the halves unless a left field is a lone dash |
| MountInfo.LineIsParsedBack | src/mounts.rs:77-94 | target, options, filesystem and source are recovered from every line the kernel may write |
| MountInfo.RefusedExactly | src/mounts.rs:77-87 | a line is refused exactly when it has no separator, or fewer than six fields before the first one or two after it |
| MountInfo.ParsedHoldsOnlyEscapable | src/mounts.rs:77-102 | no parsed target or source ever holds whitespace that is not escaped by the kernel |
| Inventory.PushEntries | src/onedrive_prototype.rs:96-101 | the stack gains the whole directory in some order within the entry limit, or the limit is truly exceeded |
| Inventory.ReadFile | src/onedrive_prototype.rs:114-137 | a file passes exactly when its reads add up to its declared length |
| Inventory.VisitItem | src/onedrive_prototype.rs:77-142 | one pass keeps counted plus pending equal to the whole tree, or fails for a reason that is in the tree |
| Inventory.SampleInventory | src/onedrive_prototype.rs:68-152 | for every listing order the counts and the sorted listing are those of the recursive fold; it succeeds exactly on acceptable trees, none of them with more than 20,000 entries, whose visit takes fewer polls than it takes the token to be found cancelled |
| Inventory.SortRecords | src/onedrive_prototype.rs:143 | the records in order, none lost or added |
| Inventory.TextOrderIs | src/onedrive_prototype.rs:143 | the order the names are sorted by: a beginning first, else by the first character that differs |
| Inventory.DirectoryBeforeFile | src/onedrive_prototype.rs:94-143 | of one name a directory is listed before a file |
| Inventory.SortedIsUnique | src/onedrive_prototype.rs:143-148 | a multiset of records has one sorted listing, so the digest does not depend on the listing order |
| Inventory.AgreedByTotals | src/onedrive_prototype.rs:68-150 | two inventories of one tree agree in everything |
| Inventory.FoldDirectory | src/onedrive_prototype.rs:92-102 | a directory's total is its own plus that of the list of its entries |
| Inventory.FoldCountsFiles | src/onedrive_prototype.rs:103-142 | files and bytes are those of the tree |
| Inventory.FoldCountsDirectories | src/onedrive_prototype.rs:92-95 | directories are those of the tree |
| Inventory.FoldCountsNodes | src/onedrive_prototype.rs:92-102 | nodes are those of the tree |
| Inventory.FoldCountsPolls | src/onedrive_prototype.rs:77-142 | a visit polls the token once for each node and before each read of a file |
| Inventory.FoldLists | src/onedrive_prototype.rs:92-140 | the listing holds exactly the directories and files of the tree, by path, kind and digest |
| Inventory.FoldRefuses | src/onedrive_prototype.rs:77-91 | a tree is refused exactly for a symlink, a special file or a name that is no text |
| Inventory.FoldReaches | src/onedrive_prototype.rs:82-90 | the depth is that of the deepest node: a level is within it exactly when something in the tree reaches it |
| Folds.OrderDoesNotMatter | src/onedrive_prototype.rs:96-101 | the total of a list of entries does not depend on their order |

## Left out

- RunPlan.Host: runs one plan at a time; other connections' steps between two of its own are interleaved in
  CoordinatorRuns, at the granularity of one recovery preparation.
- RunPlan.Host.CleanupRetention: takes the listings as given and counts nothing; module Retention does both, and
  CoordinatorRetention proves that the two decide alike.
- PreloadJobs: the registry is a class; monitors and cancels, which run concurrently, are steps of a machine on
  values. ManualOperation is such a machine as a whole.
- Repair in `src/app.rs`, which rewrites the state file under the operation lock, is not part of this model.
- Retargeting in `src/app.rs:11628-11668` removes both markers of a SharePoint mirror whose work directory changes;
  `CoordinatorTheorems.SyncMarkerStays` does not hold across it.
- Local access markers: the write in `ensure_local_access_marker` is folded into input preparation.
- Provider checks (`verify`, `primary`, Graph, D-Bus portal, SharePoint binding) are arbitrary answers.
- The warnings text of retention and all other message texts.
- PreloadJobs: mount probing, root probing and deadlines inside a monitor are arbitrary delays between commands.
- RefreshJobs: `start_with` (readiness probing and the root submission) is given as the job it returns.
- ManualOperation: `Notify` is modelled by waking every listener registered before the call.
- OAuth.Authenticate: the checks of the setup record before the name check are left out; they send nothing.
- OAuth.Verify: what each check asks of rclone and of the provider is part of its arbitrary result.
- ConfigTargets.Validate: checks that look at no path (names, VPN profiles, policies, identities) enter as given
  findings; `validate_with_work_root` is not modelled.
- Paths: names are character strings; bytes that are not UTF-8 are left out.
- Redact: `redact_text` chooses between the two redactors by parsing JSON, which is a library; JSON values are
  rebuilt instead of changed in place.
- SftpExclusion: locale classes inside bracket expressions are left out; escaped patterns contain none.
- MountInfo: reading the mount table file and splitting it into lines.
- Inventory: errors of reading a directory or file after its metadata was read are left out; SHA-256
  is an opaque digest of a file, and JSON serialization of the listing is the listing itself.
- Process spawning, signals, pipes, retries, user interface, packaging and release scripts.
- Option-by-option parsing of legacy units in `src/import.rs`, service plans, sleep, VPN and mount guards.
