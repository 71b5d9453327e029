# Verified model of the Agapornis agent

A Dafny model of the stateful parts of the agent, and proofs of what they are for. `dafny verify dfyconfig.toml` checks
everything.

**Console hub.** `ConsoleHistory` is the bounded per-server history with its global least-recently-used budget, as a
class with the original's saturating byte accounting; a ghost log of every pushed line says what the stored lines are,
and the effect of a push on these logs (`PushEffect`) is all that the step system below uses of it. `ConsoleStream` is
the replay-then-live stream of a viewer, over single lock sections. `ConsoleLifecycle` is the inventory behind the
lifecycle lock. `ConsoleHub` puts them together as a step system: every action is one section under one lock
acquisition, so a run is any interleaving of viewers, readers, supervisor lines, removals and synchronizations; a
subscription, a removal or a synchronize may be dropped while it waits for a lock. `ConsoleEviction` is a run of the
hub, and of the history cache behind it, in which a viewer loses a line, `ConsoleCancellation` two runs with a removal
that is dropped half-way, and `ConsoleRounds` what their sections have in common. A reader's `active` flag is read
inside the section that uses it; a withdrawal that clears it during that section is the same as one just after it,
because it touches neither the history nor the senders before it has their locks. `ConsoleCursor` is the resume from a
Docker timestamp, `LineDecoder` the splitting of output into lines.

**Caches, windows and counters.** `DiskUsage` is the single-flight disk usage cache with its tokens and the scanner;
`Protection` the console and command rate limits; `CrashLoop` the failure window and quarantine.

**Files.** `Restore` is the transactional restore, under an oracle that says which of its calls fail; `BackupCrypto` the
encrypted backup format over an abstract cipher; `AgentUpdate` activation, rollback and commit of an agent binary,
stopped between any two effects on the file system.

**Configuration.** `ConfigLines`, `IniConfig` and `PropertiesConfig` are the line-based parsers, `ConfigText` how a file
splits into lines, and `ConfigFiles` both parsers on whole files; `ConfigPath` and `StructuredConfig` paths into JSON
and YAML documents; `ContainerRepair` the environment, launcher and runtime directory of a container. `Json` and `Text`
hold what they share, `Machine`, `Wrappers` and `Sequences` what everything shares.

Some properties one would expect do not hold, and the model says exactly when they do:

- A viewer sees every entry only while its server's history is not evicted; eviction restarts the numbering, and the
  next live entry can be hidden (`ConsoleEviction.EvictionCanHideALiveEntry`, whose pushes are those the cache must
  make, `ConsoleEviction.RestartNumbering`); which received entries are hidden is exactly
  `ConsoleStream.QueuedShownIff`.
- Outside a purge a server that is not desired has a sender exactly if a removal or synchronize of it was dropped while
  it waited for the senders, and nothing has dropped that sender since (`ConsoleHub.LeftBehind`);
  `ConsoleCancellation.RemovalCanLeaveASender` is such a run.
- Whoever subscribes after a purge is never shown a line of a reader from before the withdrawal
  (`ConsoleHub.PurgedReaderIsNeverShown`); where the purge was dropped before the history, a viewer can be
  (`ConsoleCancellation.DroppedPurgeCanReplayAnOldLine`).
- A reconnect resumes without gap or repeat exactly if the cursor separates old lines from new ones at its own timestamp
  (`ConsoleCursor.ResumesIff`); it does if the first tail does not split a group of equal timestamps, and
  `ConsoleCursor.SplitGroupRepeatsAnOlderLine` is a log where it does.
- A restore that fails reports that it gave the original back exactly if no second call fails
  (`Restore.TwoFailuresAreNotRolledBack`); it loses entries exactly if two calls fail that `Restore.EntriesAreLostIff`
  names by their numbers, as in `Restore.RollbackCanStrand`.
- The running binary survives interrupted activations and rollbacks exactly if no older activation is still recorded
  (`AgentUpdate.OldBinaryIsKept`); which interrupted start-ups and commits leave every later start-up failing is exactly
  `AgentUpdate.WhereInterruptionSticks` and `AgentUpdate.HalfCommitSticks`.
- Updating a container's configuration settles exactly if every requested entry has an `=`
  (`ContainerRepair.UpdateReachesFixpoint`).
- A plain value is a functional update of every INI or properties file exactly if only whitespace follows its first line
  break (`ConfigFiles.IniTextIsExact`, `ConfigFiles.PropertiesTextIsExact`); any other value is cut, and what is behind
  the break is read as lines of their own.
- A properties value is read back exactly if it does not begin with a delimiter
  (`PropertiesConfig.StoredIffNoDelimiter`), and setting a JSON path twice is setting it once exactly if the options do
  not chain (`StructuredConfig.SettingTwice`).

## Model

| member | source | states |
|---|---|---|
| `ConsoleHub.GenerationIsolation` | src/grpc/services/console/reader.rs:31-49 | In every run, a reader started before its server was removed (or dropped by the bootstrap snapshot) has no line in the history that was not there before, and none at all once a purge of that server has reached the history; no viewer that subscribes afterwards receives one, and a line it is replayed is from the history as it stood at the withdrawal |
| `ConsoleHub.PurgedReaderIsNeverShown` | src/grpc/services/console/lifecycle.rs:259-271 | After a purge no later viewer of the server is shown a line of such a reader, replayed or live |
| `ConsoleCancellation.DroppedPurgeCanReplayAnOldLine` | src/grpc/services/console/lifecycle.rs:265-270 | A run in which a removal is dropped while it waits for the history, the server is tracked again, and its next viewer is replayed a line of the reader that was stopped |
| `ConsoleHub.WithdrawalEnds` | src/grpc/services/console/lifecycle.rs:28-41 | A withdrawal is over only when its purge has reached the history, or its call was dropped |
| `ConsoleHub.LifecycleInvariant` | src/grpc/services/console/lifecycle.rs:131-227 | Readers exist only for desired ids; between lifecycle sections the senders without a desired server are exactly those that dropped calls left; unfinished readers never exceed the capacity, the pending sets are disjoint, and empty once the inventory is initialised |
| `ConsoleHub.SubscriptionGoesOnIff` | src/grpc/services/console/lifecycle.rs:131-156 | In every reachable state an admitted subscription goes on to its receiver if and only if there is no Docker, a task of that server is active and not finished, or fewer servers than the capacity have one; so a server whose reader runs never refuses a further viewer |
| `ConsoleHub.SubscriberIsServed` | src/grpc/services/console/lifecycle.rs:118-126 | Whoever got its receiver listens on its server's channel, and with Docker a reader of the present generation runs on that channel |
| `ConsoleHub.RetiringIff` | src/grpc/services/console/lifecycle.rs:229-247 | Exactly what becomes of an idle reader: stopped meanwhile, it just ends; with an open receiver on its channel it hands over to a successor that runs; else it keeps the lock to clean up |
| `ConsoleHub.NothingIsLeft` | src/grpc/services/console/lifecycle.rs:248-270 | When a retiring reader or a purge is through, its server has no sender and no line in the history |
| `ConsoleHub.ReaderLineArrives` | src/grpc/services/console/reader.rs:12-49 | The line a running reader has read becomes the next entry of its server's history, under its name and generation, and of every open receiver on its channel; then it reads on with all else as it was |
| `ConsoleHub.SupervisorLineArrives` | src/grpc/services/console/mod.rs:92-99 | An admitted supervisor line likewise, where its server has a channel |
| `ConsoleHub.LeavingIsFinal` | src/grpc/services/server.rs:350-393 | In every run a viewer that has left receives nothing more |
| `ConsoleHub.LockIsGivenBack` | src/grpc/services/console/lifecycle.rs:4-271 | In every reachable state the holder of the lifecycle lock can go on, and has given it back after at most two sections |
| `ConsoleHub.ReaderCanGoOn` | src/grpc/services/console/reader.rs:12-49 | With the lock free, every unfinished reader has a section to go on with |
| `ConsoleHub.LeftBehind` | src/grpc/services/console/lifecycle.rs:229-271 | Outside its purge, a server that is not desired has a sender if and only if a purge was dropped while it waited for the senders and found one there, and no later purge or retiring reader has dropped it since |
| `ConsoleCancellation.RemovalCanLeaveASender` | src/grpc/services/console/lifecycle.rs:259-268 | The run that leaves one: a watched server is removed, and the call dropped while it waits for the senders |
| `ConsoleHub.CancelPurgeKeeps` | src/grpc/services/console/lifecycle.rs:259-271 | A removal or synchronize that is dropped at either of its two waits keeps the joint invariant |
| `ConsoleHub.OneWriterPerServer` | src/grpc/services/console/lifecycle.rs:158-172 | No server has two running readers that could both still publish |
| `ConsoleHub.ViewerSeesNothingTwice` | src/grpc/services/server.rs:350-393 | In every run no viewer is shown an entry twice, whatever was evicted or removed meanwhile |
| `ConsoleHub.ViewerMissesNothing` | src/grpc/services/console/lifecycle.rs:110-129 | A viewer whose server was not withdrawn since it subscribed, and whose history was not dropped, has been shown every entry of that history, replayed or live, except those in flight and those trimmed from the bounded history |
| `ConsoleHub.OnlyEvictionDropsAWatchedHistory` | src/grpc/services/console/lifecycle.rs:229-257 | While a viewer stays attached, only a push to another server can drop the history it reads; retiring readers never do |
| `ConsoleHub.StepKeepsInv` | src/grpc/services/console/lifecycle.rs:4-271 | Every lock section keeps the joint invariant of tasks, channels, viewers, records and entries in flight |
| `ConsoleHub.RunKeepsInv` | src/grpc/services/console/lifecycle.rs:4-271 | The joint invariant holds in every reachable state |
| `ConsoleHub.RunAdvances` | src/grpc/services/console/lifecycle.rs:259-308 | Generations only advance, tasks and viewers keep theirs, and whoever subscribes later belongs to a later generation |
| `ConsoleHub.StoppedOwesNothing` | src/grpc/services/console/reader.rs:43-46 | A stopped reader may give up the entry it has pushed but not sent: no attached viewer is owed it |
| `ConsoleHub.WithdrawKeeps` | src/grpc/services/console/lifecycle.rs:259-271 | Clearing the flags of withdrawn readers before their channels and histories go keeps the invariant |
| `ConsoleHub.BeginRetireKeeps` | src/grpc/services/console/lifecycle.rs:229-257 | A retiring reader that restarts itself, leaves, or finds itself replaced keeps the invariant, the capacity included |
| `ConsoleHub.InstallKeeps` | src/grpc/services/console/lifecycle.rs:110-172 | Installing a receiver, with a new channel and a new reader where needed, keeps the invariant |
| `ConsoleStream.ShownOnce` | src/grpc/services/server.rs:350-393 | No entry is both replayed and shown live, and none is shown twice |
| `ConsoleStream.ShownUnlessTrimmed` | src/grpc/services/server.rs:350-393 | For a viewer whose history was not dropped, every entry of it, pushed before or after it attached, has been shown, is in flight, or was trimmed |
| `ConsoleStream.PushThenSend` | src/grpc/services/console/reader.rs:31-49 | A line that is pushed and sent has the next number of its log, and is the next entry of exactly the open receivers on its channel |
| `ConsoleStream.QueuedShownIff` | src/grpc/services/server.rs:370-389 | Exactly which received entries a viewer gets to see |
| `ConsoleEviction.EvictionCanHideALiveEntry` | src/grpc/services/server.rs:350-393 | A run from the empty hub with two readers in which three lines of one server evict the watched history of the other, whose next line is received but never shown |
| `ConsoleEviction.PushesAreTheCaches` | src/grpc/services/console/reader.rs:35-41 | The pushes of that run leave the logs that the cache leaves |
| `ConsoleEviction.RestartNumbering` | src/grpc/services/console/history.rs:45-117 | The cache must leave these logs, for every budget that three such lines fit and four do not (16384 bytes, the default limit of a line, do so for the smallest budget): the replay covers sequence 1, and the next entry is 1 again |
| `ConsoleEviction.PushForced` | src/grpc/services/console/history.rs:105-117 | A push keeps the lines of the other server while all of them fit, and evicts them all when they do not |
| `ConsoleStream.LiveFilters` | src/grpc/services/server.rs:370-389 | The sequence filter keeps exactly the later entries, and no repeats appear |
| `ConsoleStream.PushKeeps` | src/grpc/services/console/reader.rs:35-41 | A push keeps every entry's identity: no other entry has its incarnation and sequence |
| `ConsoleStream.SendKeeps` | src/grpc/services/console/reader.rs:42-48 | A send delivers an entry to each open receiver once and keeps the stream invariant |
| `ConsoleStream.SnapshotKeeps` | src/grpc/services/console/lifecycle.rs:127-128 | A snapshot taken at any later time keeps the stream invariant |
| `ConsoleStream.DropHistoriesKeeps` | src/grpc/services/console/history.rs:99-103 | Dropping histories starts new incarnations and keeps the stream invariant |
| `ConsoleLifecycle.BootstrapMerge` | src/grpc/services/console/lifecycle.rs:4-69 | After the first successful synchronize an id is desired exactly if its last direct operation was an addition, or it had none and is in the snapshot; before it, the pending sets are exactly the last direct operations |
| `ConsoleLifecycle.IdleSynchronize` | src/grpc/services/console/lifecycle.rs:8-13 | A failed synchronize changes nothing, and later ones after a success are no-ops |
| `ConsoleLifecycle.AdmissionsAgree` | src/grpc/services/console/lifecycle.rs:75-87 | An attach is refused exactly when a subscription is refused, exactly when a supervisor line is swallowed |
| `ConsoleLifecycle.InspectionIsAsked` | src/grpc/services/console/lifecycle.rs:75-87 | Over every run of operations: an attach is admitted exactly for servers not known to be gone, by the last direct operation and else the snapshot; and it asks Docker exactly before the first snapshot, for servers with neither a direct operation nor a subscription yet |
| `ConsoleLifecycle.SectionsKeepLifecycleOk` | src/grpc/services/console/lifecycle.rs:273-308 | Each inventory section keeps the pending sets disjoint and readers within the desired ids, and starts no reader |
| `ConsoleLifecycle.ConsoleInventory.SynchronizeServers` | src/grpc/services/console/lifecycle.rs:8-27 | The merged inventory, the withdrawn ids, and exactly their readers stopped |
| `ConsoleLifecycle.ConsoleInventory.ValidateInventory` | src/grpc/services/console/lifecycle.rs:273-280 | The set of all ids if all are valid, else a refusal |
| `ConsoleLifecycle.ConsoleInventory.TrackServer` | src/grpc/services/console/lifecycle.rs:45-54 | The inventory after an addition; an invalid id changes nothing |
| `ConsoleLifecycle.ConsoleInventory.BeginRemove` | src/grpc/services/console/lifecycle.rs:259-267 | The inventory after a removal, and its reader stopped |
| `ConsoleLifecycle.ConsoleInventory.AdmitSubscription` | src/grpc/services/console/lifecycle.rs:282-293 | Admission, with the provisional assignment before bootstrap |
| `ConsoleLifecycle.ConsoleInventory.StopReader` | src/grpc/services/console/lifecycle.rs:303-308 | The reader leaves the map and is stopped |
| `ConsoleHistory.HistoryCache.Push` | src/grpc/services/console/history.rs:45-77 | Accounting stays exact and within budget; the server keeps the longest suffix of its log that the line, byte and global limits allow; victims were used no later than any survivor, only as many as needed, and all others go before one of its own lines pays for the budget |
| `ConsoleHistory.HistoryCache.Snapshot` | src/grpc/services/console/history.rs:79-97 | The untrimmed end of the log and the last sequence it covers; only the access stamp changes |
| `ConsoleHistory.HistoryCache.Remove` | src/grpc/services/console/history.rs:99-103 | Drops one history with its charge |
| `ConsoleHistory.HistoryCache.EvictToBudget` | src/grpc/services/console/history.rs:105-131 | Least recently used others first, then the server's own oldest lines, until the budget holds |
| `ConsoleHistory.HistoryCache.EvictOthers` | src/grpc/services/console/history.rs:105-117 | The eviction loop ends with the budget kept or the pushed server alone, having dropped least recently used servers only |
| `ConsoleHistory.HistoryCache.constructor` | src/grpc/services/console/history.rs:26-43 | 64 MiB unless configured, and anything configured is kept between 64 KiB and 1 GiB |
| `ConsoleHistory.PopToLimits` | src/grpc/services/console/history.rs:62-72 | Pops oldest lines, with exact accounting, to the trimmed suffix |
| `ConsoleHistory.PopToBudget` | src/grpc/services/console/history.rs:119-131 | Pops oldest lines to the suffix the budget can pay for |
| `ConsoleHistory.AppendLine` | src/grpc/services/console/history.rs:45-77 | Consecutive sequence numbers, saturating at the width of the counter |
| `ConsoleHistory.LeastRecent` | src/grpc/services/console/history.rs:107-112 | The victim is another server used no later than all others |
| `ConsoleHistory.TrimToLimitsIsLongestSuffix` | src/grpc/services/console/history.rs:62-72 | The kept lines are the longest suffix of at most 200 lines and 64 KiB |
| `ConsoleHistory.TrimToBudgetIsLongestSuffix` | src/grpc/services/console/history.rs:119-131 | The kept lines are the longest suffix within the budget |
| `ConsoleHistory.ChargeBounded` | src/grpc/services/console/history.rs:159-161 | The charge of a history is the number of its bytes plus 24 for each entry |
| `ConsoleHistory.TotalWithout` | src/grpc/services/console/history.rs:99-103 | The global charge is the sum over stored servers, whatever the order |
| `ConsoleCursor.ResumeIsLossless` | src/grpc/services/console/reader.rs:88-160 | Over any number of connections, each following the log as far as it likes and cut at any line boundary, the published lines are one contiguous stretch of the log |
| `ConsoleCursor.ResumesIff` | src/grpc/services/console/reader.rs:220-228 | One reconnect lets through exactly the next lines if and only if the cursor tells old from new at its own timestamp |
| `ConsoleCursor.WholeGroupsResume` | src/grpc/services/console/reader.rs:209-243 | Distinct lines and a first tail that starts with a whole group make every reconnect resumable |
| `ConsoleCursor.SplitGroupRepeatsAnOlderLine` | src/grpc/services/console/reader.rs:264-266 | A log of one line more than the first tail, whose first two lines share a timestamp: a reader cut after its first line publishes the older line after it |
| `ConsoleCursor.ResumeOnce` | src/grpc/services/console/reader.rs:88-160 | A reconnect continues the stretch where it stopped, or publishes nothing |
| `ConsoleCursor.FollowCovers` | src/grpc/services/console/reader.rs:226-236 | After publishing lines the cursor knows the newest timestamp and exactly the lines seen at it |
| `ConsoleCursor.ReplayStartIs` | src/grpc/services/console/reader.rs:264-266 | A connection replays from the first line of the cursor's second, capped at the last that fits 32 bits, or the last 200 lines without a cursor |
| `ConsoleCursor.Reader.ProcessLine` | src/grpc/services/console/reader.rs:209-243 | Skips exactly the replayed lines at or before the cutoff, and moves the cursor along |
| `ConsoleCursor.Reader.Connect` | src/grpc/services/console/reader.rs:88-160 | One connection publishes the lines beyond its cutoff |
| `LineDecoder.DecodingRefinesSplitting` | src/grpc/services/console/decoder.rs:11-75 | However the bytes were cut into chunks and the streams interleaved, each stream decodes to the lines of its whole byte stream, cut to the maximum |
| `LineDecoder.ChunkingIsInvisible` | src/grpc/services/console/decoder.rs:12-19 | Each stream's decoder ends as if fed all its bytes at once |
| `LineDecoder.FeedIsSplit` | src/grpc/services/console/decoder.rs:37-65 | Feeding a fresh buffer gives the lines ended by CRLF, CR or LF, and keeps the rest for `finish` |
| `LineDecoder.FeedPlain` | src/grpc/services/console/decoder.rs:52-54 | Bytes without a break fill the buffer to the maximum and mark it truncated exactly if there were more |
| `LineDecoder.FeedAllAppend` | src/grpc/services/console/decoder.rs:37-57 | Two chunks are one |
| `LineDecoder.LineBuffer.Push` | src/grpc/services/console/decoder.rs:37-57 | The loop computes the byte-by-byte fold |
| `LineDecoder.LineBuffer.TakeLine` | src/grpc/services/console/decoder.rs:67-74 | Hands out the line and empties the buffer |
| `LineDecoder.LineBuffer.FinishLines` | src/grpc/services/console/decoder.rs:59-65 | The unterminated rest, if there is any |
| `LineDecoder.ConsoleOutputDecoder.Push` | src/grpc/services/console/decoder.rs:12-19 | Only the decoder of that stream changes |
| `LineDecoder.ConsoleOutputDecoder.FinishLines` | src/grpc/services/console/decoder.rs:21-26 | The rests of the three streams, in order |
| `DiskUsage.SingleFlightFreshness` | src/runtime/docker/inspection/disk.rs:65-137 | Under any interleaving, the value or calculation in the cache was begun after the id was last invalidated |
| `DiskUsage.CachedAnswersAreFresh` | src/runtime/docker/inspection/disk.rs:110-137 | In every run, a call that finishes as it enters is answered with what the cached calculation measured, not too old, and begun after the last invalidation |
| `DiskUsage.EnteringIff` | src/runtime/docker/inspection/disk.rs:110-137 | Exactly what becomes of a call that enters, on its program counter: it finishes with the snapshot if it is not forced and the snapshot is no older than the limit, waits if a calculation is in flight, and else calculates under its own token |
| `DiskUsage.ForcedMeasuresItself` | src/runtime/docker/inspection/disk.rs:110-137 | In every run, a forced call never finishes with a usage that it did not measure itself, from its own entry to its own completion |
| `DiskUsage.StepKeepsInv` | src/runtime/docker/inspection/disk.rs:21-153 | Every step keeps: a calculation in the cache has a live owner or a pending clean-up |
| `DiskUsage.RunKeepsInv` | src/runtime/docker/inspection/disk.rs:21-153 | The same in every reachable state |
| `DiskUsage.EntryComesFrom` | src/runtime/docker/inspection/disk.rs:83-91 | A snapshot is stored only by the calculation whose token is in the cache at that moment |
| `DiskUsage.LateCallsAreHarmless` | src/runtime/docker/inspection/disk.rs:21-39 | A late completion or clean-up leaves a newer token or snapshot alone |
| `DiskUsage.CalculationCanEnd` | src/runtime/docker/inspection/disk.rs:139-153 | A calculation in the cache can always be completed or cleaned up |
| `DiskUsage.CalculationKeepsItsPlace` | src/runtime/docker/inspection/disk.rs:21-39 | In every run a calculation keeps its place in the cache until its own call completes or is cleaned up, a waiter on it loses patience, or its id is invalidated; no other call, forced or late, takes it away |
| `DiskUsage.CalculationEndsOnlyBy` | src/runtime/docker/inspection/disk.rs:83-137 | In every reachable state a step ends a calculation if and only if it is one of these |
| `DiskUsage.Cache.BeginCalculation` | src/runtime/docker/inspection/disk.rs:110-137 | Decides and changes the map as the step system's entering call does, whose outcomes are `EnteringIff` |
| `DiskUsage.Cache.StoreResult` | src/runtime/docker/inspection/disk.rs:83-91 | Stores under its own token only |
| `DiskUsage.Cache.ReleaseToken` | src/runtime/docker/inspection/disk.rs:21-39 | Removes its own token only |
| `DiskUsage.DirSize` | src/runtime/docker/inspection/disk.rs:202-226 | The work list loop computes the saturated sum of all regular files |
| `Protection.CommandRateBound` | src/security/protection.rs:119-131 | At most limit times (floor of L/5 plus 2) commands in any L seconds |
| `Protection.ConsoleRateBound` | src/security/protection.rs:62-109 | At most (limit plus 1) times (L plus 2) lines in any L whole seconds |
| `Protection.OneNoticePerWindow` | src/security/protection.rs:90-108 | Between two notices the window has restarted |
| `Protection.NotifyIsRare` | src/security/protection.rs:71-76 | Two throttling notices are at least ten seconds apart |
| `Protection.LineMeaning` | src/security/protection.rs:62-109 | A line is allowed exactly as one of the first of its window, and a notice can only be the one after them |
| `Protection.LineDecidedIff` | src/security/protection.rs:62-109 | On the times alone: a line passes if and only if it is one of the first `limit` of its window; it trips if and only if it is the one after them and ends a chain of at least `strikeLimit` such lines, each less than ten seconds after the one before; it is noted if and only if it is such a line, does not trip, and none of them came less than ten seconds before; all else is suppressed |
| `Protection.QuietLinesPass` | src/security/protection.rs:78-88 | A server that never writes more than `limit` lines in less than a second is never throttled |
| `Protection.CommandAcceptedIff` | src/security/protection.rs:119-131 | A command is accepted if and only if fewer than `limit` precede it in its five-second window, which is defined on the times alone |
| `Protection.QuietCommandsAreAccepted` | src/security/protection.rs:119-131 | Who never sends more than `limit` commands in less than five seconds is never refused |
| `Protection.WindowBound` | src/security/protection.rs:119-131 | The bound for any window length and quota |
| `Protection.RestartsAreApart` | src/security/protection.rs:125-128 | Restarts of a window are a whole window apart |
| `Protection.StrikeIsRemembered` | src/security/protection.rs:71-96 | For ten seconds after a strike no further notice is given |
| `Protection.ProtectionState.ObserveLine` | src/security/protection.rs:62-109 | Decides for its server as the run that `LineDecidedIff` is about, and leaves the others alone |
| `Protection.ProtectionState.AcceptCommand` | src/security/protection.rs:119-131 | The decision and the new window of one server; others keep theirs |
| `CrashLoop.DequeIsRecentLog` | src/runtime/supervisor.rs:172-229 | The deque, pruned only at its front, is the log of failures since the last reset that are at most 300 seconds old, where failures and resets are defined on the samples alone |
| `CrashLoop.ResetsIsObserved` | src/runtime/supervisor.rs:190-219 | The remembered running time resets the log exactly when the samples show manual recovery or two minutes of running without a break |
| `CrashLoop.SinceIsStreak` | src/runtime/supervisor.rs:211-219 | The remembered start is that of the longest running streak up to the last sample |
| `CrashLoop.QuarantineMeaning` | src/runtime/supervisor.rs:204-227 | Quarantine holds exactly if some scan since the last manual recovery found three of these, and the action fires exactly at the first |
| `CrashLoop.ActsOnce` | src/runtime/supervisor.rs:221-227 | Between two actions lies a manual recovery |
| `CrashLoop.QuarantineLasts` | src/runtime/supervisor.rs:172-229 | Only a manual recovery ends a quarantine |
| `CrashLoop.QuarantineHasStart` | src/runtime/supervisor.rs:221-227 | Every quarantine has a scan that acted, with no recovery since |
| `CrashLoop.PruneIsRecent` | src/runtime/supervisor.rs:204-210 | Pruning the front of an ascending deque is filtering it |
| `CrashLoop.Monitor.Observe` | src/runtime/supervisor.rs:172-229 | One scan, with its loops |
| `Restore.RestoreTransactionally` | src/storage/backup/archive.rs:130-191 | For every choice of failing calls, the outcome, how many entries are lost and how many calls are made; success leaves exactly the archive, a rolled back failure exactly the original, a failed rollback the original less what stayed in the removed directory, a failed clear besides that only entries the archive has |
| `Restore.TwoFailuresAreNotRolledBack` | src/storage/backup/archive.rs:130-191 | It succeeds if and only if none of its calls fails, and it reports a failed rollback or clear if and only if two of them fail; so one failed call is always rolled back |
| `Restore.EntriesAreLostIff` | src/storage/backup/archive.rs:157-186 | Exactly which failing calls lose entries, by their numbers: one of a move, and one of the move back that undoes it before that has found no more entries |
| `Restore.MoveStopsAt` | src/storage/backup/archive.rs:193-209 | How far a move gets, in terms of the number of its first failing call |
| `Restore.RollbackCanStrand` | src/storage/backup/archive.rs:157-168 | Two failing renames with which an entry is lost |
| `Restore.ReplaceContents` | src/storage/backup/archive.rs:157-190 | The same for the replacement of an existing directory's contents |
| `Restore.UndoActivation` | src/storage/backup/archive.rs:170-186 | A partial activation is cleared and the original contents moved back, each as far as its calls succeed |
| `Restore.MoveDirectoryContents` | src/storage/backup/archive.rs:193-209 | For any listing order and any failing calls, how many entries moved, that all the others did not, and that all did on success |
| `Restore.ClearDirectoryContents` | src/storage/backup/archive.rs:211-222 | Empty on success, which needs three calls for each entry and two more; never a new name |
| `Restore.MovingBackRestores` | src/storage/backup/archive.rs:155-165 | Moving any part of a directory aside and all of it back, in any order, gives the directory as it was |
| `BackupCrypto.RoundTrip` | src/storage/backup/crypto.rs:69-113 | However the plaintext was split into reads, decrypting the encrypted file gives it back |
| `BackupCrypto.TruncationIsRejected` | src/storage/backup/crypto.rs:74-92 | Every proper prefix of an encrypted file is rejected |
| `BackupCrypto.FileLayout` | src/storage/backup/crypto.rs:21-58 | Every byte of an encrypted file: the magic, the prefix, frame k at its offset with the big-endian length of chunk k and what the cipher makes of it under the prefix and the big-endian k, k being also authenticated, and four zeros |
| `BackupCrypto.DecodesIff` | src/storage/backup/crypto.rs:69-113 | For every file and result: exactly the files of magic, prefix and frames of at most four mebibytes that the cipher opens up to a zero length are accepted, with the chunks as plaintext; for any other the error says what stands behind the last frame that opens |
| `BackupCrypto.NoncesAreDistinct` | src/storage/backup/crypto.rs:28-48 | All nonces that one encryption uses, one that fails at the 2^32nd chunk included, are pairwise distinct, as section 8 of NIST SP 800-38D requires |
| `BackupCrypto.EncryptFile` | src/storage/backup/crypto.rs:21-58 | The encoded file, or a failure exactly from the 2^32nd chunk on; and the list of the nonces it used |
| `BackupCrypto.DecryptFile` | src/storage/backup/crypto.rs:69-113 | The loop computes the format's decoder; on an error exactly the plaintext of the frames before it has been written |
| `BackupCrypto.DecodedIsRecovered` | src/storage/backup/crypto.rs:83-112 | What a successful decryption yields is what its frames wrote |
| `BackupCrypto.ReadFrame` | src/storage/backup/crypto.rs:83-108 | One frame: its plaintext, the end, or the error of the first check that fails |
| `BackupCrypto.FramesRoundTrip` | src/storage/backup/crypto.rs:31-56 | Frames followed by the zero length decode to the chunks |
| `BackupCrypto.CutFramesFail` | src/storage/backup/crypto.rs:84-92 | Frames cut anywhere end unexpectedly |
| `BackupCrypto.BigEndianRoundTrip` | src/storage/backup/crypto.rs:50-50 | A length survives its four bytes |
| `AgentUpdate.OldBinaryIsKept` | src/runtime/update.rs:206-275 | Through any sequence of interrupted activations and rollbacks the running binary is at the executable path, or restorable from a valid record, if and only if no older activation is still recorded |
| `AgentUpdate.ActivateThenRollBack` | src/runtime/update.rs:206-275 | Left alone, an activation installs the new binary and the next uncommitted start-up restores exactly the old one |
| `AgentUpdate.RunKeepsInv` | src/runtime/update.rs:206-275 | One run, stopped after any effect, keeps the binary |
| `AgentUpdate.WhereInterruptionSticks` | src/runtime/update.rs:230-231 | Exactly which interruptions leave every later start-up failing |
| `AgentUpdate.HalfCommitSticks` | src/runtime/update.rs:277-286 | An interrupted commit leaves every later start-up failing if and only if it removed the previous binary and stopped before the record, and no artifact waits to be activated |
| `AgentUpdate.StuckForGood` | src/runtime/update.rs:206-217 | Where a start-up can only fail, so does every later one, and nothing changes |
| `AgentUpdate.Installation.ActivateAt` | src/runtime/update.rs:206-233 | What happened is a prefix of its plan; the files after an activation and after a roll back, outright; undisturbed it activates exactly a staged artifact beside a binary, and where it fails nothing has changed |
| `AgentUpdate.Installation.RollBackAt` | src/runtime/update.rs:254-275 | What happened is a prefix of its plan, or the failed binary was put back; the files after a roll back, outright; undisturbed it rolls back exactly a recorded activation with both binaries there |
| `AgentUpdate.Installation.CommitHealthyAt` | src/runtime/update.rs:277-286 | What happened is a prefix of its plan, whether or not the ignored removal of the previous binary worked; undisturbed it removes both |
| `ConfigFiles.IniFileIsUpdated` | src/runtime/docker/configuration/line.rs:89-174 | Where nothing but whitespace follows the first line break of a replacement text: each wanted key of a section reads the new value at every occurrence, at least one for a plain value; every other key keeps its values in order; headers stay in order |
| `ConfigFiles.IniTextIsExact` | src/runtime/docker/configuration/line.rs:89-174 | A plain replacement is such an update of every file if and only if nothing but whitespace follows the first line break of its text |
| `ConfigFiles.PathsAreUpdated` | src/runtime/docker/configuration/line.rs:89-174 | Said of paths, where no two name the same key: the key a path names is replaced in its section or added there, all other keys keep their values, headers stay in order |
| `ConfigFiles.BrokenIniText` | src/runtime/docker/configuration/line.rs:89-174 | Otherwise the empty file is one where it fails |
| `ConfigFiles.IniFileSettles` | src/runtime/docker/configuration/line.rs:89-174 | Under the same condition a second run over the rewritten file changes nothing that can be read |
| `ConfigFiles.PropertiesFileIsUpdated` | src/runtime/docker/configuration/line.rs:28-58 | The same for keys of a properties file |
| `ConfigFiles.PropertiesTextIsExact` | src/runtime/docker/configuration/line.rs:28-58 | A plain replacement is such an update of every properties file if and only if nothing but whitespace follows the first line break of its text |
| `ConfigFiles.BrokenPropertiesText` | src/runtime/docker/configuration/line.rs:28-58 | Otherwise the empty file is one where it fails: the value is cut, or what follows is read as entries |
| `ConfigFiles.PropertiesFileSettles` | src/runtime/docker/configuration/line.rs:28-58 | Under the same condition a second run changes nothing that can be read |
| `ConfigText.WrittenFileReads` | src/runtime/docker/configuration/line.rs:168-174 | Joining the lines and splitting the file again loses only blank lines and carriage returns at line ends |
| `ConfigText.WrittenLinesAreExact` | src/runtime/docker/configuration/line.rs:168-174 | A file whose lines have no break or carriage return at the end, and whose last line is not empty, holds exactly the lines that were written, and ends with a newline exactly if that was asked for |
| `ConfigFiles.ApplyIniParser` | src/runtime/docker/configuration/line.rs:89-174 | From text to text: where its paths name different keys and its values fit a line, each named key reads its new values in its section, every other key of every section keeps its own, and the headers stay in order; a newline at the end stays |
| `ConfigFiles.ApplyPropertiesParser` | src/runtime/docker/configuration/line.rs:28-58 | The same for the keys of a properties file |
| `IniConfig.IniKeyIsExact` | src/runtime/docker/configuration/line.rs:104-119 | A key reads back for every text if and only if it is trimmed, has no delimiter and does not begin with a bracket |
| `IniConfig.PathNames` | src/runtime/docker/configuration/line.rs:95-97 | A path wants exactly the key behind its first dot in the section before it, and without a dot itself before the first header |
| `IniConfig.EntryIsRead` | src/runtime/docker/configuration/line.rs:104-119 | A key, `=` or `:` and a value, each with any padding, read as that entry |
| `IniConfig.HeaderIsRead` | src/runtime/docker/configuration/line.rs:102-107 | A name in brackets, with any padding, reads as that header |
| `IniConfig.IniKeepsLines` | src/runtime/docker/configuration/line.rs:89-166 | All lines but the wanted entries stay as they are written and in order; only headers of wanted sections are added, at the end |
| `IniConfig.IniStepReplaces` | src/runtime/docker/configuration/line.rs:94-163 | One wanted path replaces or adds its key and leaves all other readings alone |
| `IniConfig.IniIsFunctionalUpdate` | src/runtime/docker/configuration/line.rs:89-166 | A whole run on lines is a functional update of the readings |
| `IniConfig.SectionAtInsertion` | src/runtime/docker/configuration/line.rs:140-153 | A line inserted behind the section's first block belongs to that section |
| `IniConfig.RewriteIni` | src/runtime/docker/configuration/line.rs:98-124 | The loop over the lines, and whether the key occurred |
| `IniConfig.InsertIni` | src/runtime/docker/configuration/line.rs:126-162 | Before the first header, behind the section's block, or in a new section |
| `IniConfig.ReplaceIni` | src/runtime/docker/configuration/line.rs:94-163 | Rewrites, and inserts only where the key did not occur and the value is plain |
| `IniConfig.ApplyIni` | src/runtime/docker/configuration/line.rs:89-166 | The loop over the wanted paths |
| `PropertiesConfig.StoredIffNoDelimiter` | src/runtime/docker/configuration/line.rs:73-83 | A value is read back as written if and only if it does not begin with a delimiter |
| `PropertiesConfig.PropertiesKeyIsExact` | src/runtime/docker/configuration/line.rs:60-87 | A key reads back for every text if and only if it has no separator and does not begin a comment |
| `PropertiesConfig.EntryIsRead` | src/runtime/docker/configuration/line.rs:60-87 | A key, any run of `=`, `:` and whitespace, and a value read as that entry |
| `PropertiesConfig.BareKeyIsRead` | src/runtime/docker/configuration/line.rs:85-85 | A line without separators is a key with an empty value |
| `PropertiesConfig.CommentIsOther` | src/runtime/docker/configuration/line.rs:61-64 | Lines that begin with `#` or `!` say nothing |
| `PropertiesConfig.PropertiesKeepsLines` | src/runtime/docker/configuration/line.rs:28-58 | All lines but the wanted entries stay as they are written and in order |
| `PropertiesConfig.PropertiesStepReplaces` | src/runtime/docker/configuration/line.rs:33-55 | One wanted key is replaced or added and all other readings stay |
| `PropertiesConfig.PropertiesIsFunctionalUpdate` | src/runtime/docker/configuration/line.rs:28-58 | A whole run on lines is a functional update of the readings |
| `PropertiesConfig.ReplaceProperties` | src/runtime/docker/configuration/line.rs:33-55 | Rewrites the lines, and appends one only where the key did not occur and the value is plain |
| `PropertiesConfig.RewriteProperties` | src/runtime/docker/configuration/line.rs:36-51 | The loop over the lines, and whether the key occurred |
| `PropertiesConfig.ApplyProperties` | src/runtime/docker/configuration/line.rs:28-58 | The loop over the wanted keys |
| `ConfigLines.RewritingReads` | src/runtime/docker/configuration/line.rs:98-124 | Rewriting replaces the wanted values where they stand; headers and all other values read as before |
| `ConfigLines.InsertingReads` | src/runtime/docker/configuration/line.rs:126-162 | An inserted line adds one value to its key and changes no other reading |
| `ConfigLines.StagesReplaceAll` | src/runtime/docker/configuration/line.rs:94-163 | Replacements of distinct keys add up |
| `ConfigLines.SettledMeaning` | src/runtime/docker/configuration.rs:487-502 | What a key reads afterwards, value by value: a plain replacement everywhere, once if there was nothing; an option for the value that stood there, and that value where there is no option |
| `ConfigLines.SecondRunChangesNoReading` | src/runtime/docker/configuration/line.rs:89-166 | Replacing plain values again changes no reading |
| `Json.NumberIsRead` | src/runtime/docker/configuration/structured.rs:117-127 | A text becomes an integer if and only if it spells one, with any sign and leading zeros, between the least signed and the greatest unsigned 64-bit number |
| `Json.OtherTextsAreKept` | src/runtime/docker/configuration/structured.rs:128-135 | Every other text becomes the float it is parsed as, or stays |
| `Json.PortIsANumber` | src/runtime/docker/configuration/structured.rs:117-124 | "25565" becomes the number 25565 |
| `StructuredConfig.PutGet` | src/runtime/docker/configuration/structured.rs:64-108 | Every place a path selects, wildcards included, reads the coerced replacement afterwards |
| `StructuredConfig.PutGetOption` | src/runtime/docker/configuration/structured.rs:65-70 | With options, a selected place reads the option for its old text, or what it was |
| `StructuredConfig.ConcretePathSelectsItself` | src/runtime/docker/configuration/structured.rs:84-106 | A path without wildcards selects its own place, there or not |
| `StructuredConfig.OffThePath` | src/runtime/docker/configuration/structured.rs:84-106 | A place off the path reads as before if it leaves it by a segment of the same kind, and is lost otherwise |
| `StructuredConfig.SetBelowPrefix` | src/runtime/docker/configuration/structured.rs:84-115 | Below a prefix, setting a path is setting its rest, on what was there or on a new value of the right kind |
| `StructuredConfig.ArrayGrowth` | src/runtime/docker/configuration/structured.rs:96-106 | An array grows to the index of the next segment and no further |
| `StructuredConfig.MadeOnTheWay` | src/runtime/docker/configuration/structured.rs:101-115 | The places an array grows by before the index are empty arrays if an index comes next, else empty objects |
| `StructuredConfig.NothingBeside` | src/runtime/docker/configuration/structured.rs:84-92 | A key that the path leaves by another key, and that was not there, is not there afterwards |
| `StructuredConfig.LastSetWins` | src/runtime/docker/configuration/structured.rs:64-108 | The last plain replacement decides, whatever was set before it |
| `StructuredConfig.SettingTwice` | src/runtime/docker/configuration.rs:487-492 | Setting twice is setting once, in every document, if and only if the options do not chain |
| `StructuredConfig.OverridingIsLocal` | src/runtime/docker/configuration/structured.rs:64-108 | What decides at one place decides at every path of every document |
| `StructuredConfig.AllAreSet` | src/runtime/docker/configuration/structured.rs:17-22 | With paths that stay apart, all of them read their replacements at the end |
| `StructuredConfig.OthersAreKept` | src/runtime/docker/configuration/structured.rs:17-22 | A place that all of them leave by a segment of the same kind reads as in the document |
| `StructuredConfig.ApplyStructuredReplacements` | src/runtime/docker/configuration/structured.rs:17-22 | The loop over the wanted paths |
| `ConfigPath.ParsePath` | src/runtime/docker/configuration/structured.rs:31-62 | The loop over the parts and their brackets |
| `ConfigPath.PathReadsBack` | src/runtime/docker/configuration/structured.rs:31-62 | Every path the notation can express is read back as itself |
| `ConfigPath.BracketMeans` | src/runtime/docker/configuration/structured.rs:49-57 | Text in brackets is an index if it spells an unsigned 64-bit number, and is passed over otherwise |
| `ConfigPath.OtherTextIsDropped` | src/runtime/docker/configuration/structured.rs:49-52 | An unclosed bracket, or text behind one, is dropped |
| `ContainerRepair.CreatedIsReady` | src/runtime/docker/lifecycle/recreation.rs:394-420 | The body made from any container has a usable runtime directory, needs no launcher repair, restarts by hand only, keeps labels and other mounts, and making it again changes nothing |
| `ContainerRepair.UpdateReachesFixpoint` | src/runtime/docker/lifecycle/recreation.rs:45-91 | After an update the same request finds a change if and only if one of its entries has no `=` |
| `ContainerRepair.BareEntriesNeverSettle` | src/runtime/docker/lifecycle/recreation.rs:282-298 | An entry without `=` makes every update replace the container and is added once more each time |
| `ContainerRepair.RuntimeEnvironmentMeaning` | src/runtime/docker/configuration.rs:63-86 | The managed entry is last and alone for its key, all others stay, and once is enough |
| `ContainerRepair.ConfiguredDirIs` | src/runtime/docker/configuration.rs:63-86 | The runtime directory is the last one the environment names, trimmed, or the managed one if that is blank or there is none |
| `ContainerRepair.ReadyIff` | src/runtime/docker/configuration.rs:176-196 | A container's runtime directory is ready if and only if the last one its environment names is the managed one, mounted with its options, or another that is not blank |
| `ContainerRepair.KeyIs` | src/runtime/docker/lifecycle/recreation.rs:282-298 | The key of an entry is what stands before its first `=` |
| `ContainerRepair.MergedMeaning` | src/runtime/docker/lifecycle/recreation.rs:282-298 | For each key the requested entries if there are any, else the present ones |
| `ContainerRepair.RepairKeepsStartup` | src/runtime/docker/configuration.rs:104-142 | A command is of the old form if and only if it is a shell, `-lc` and `exec` with a startup line that is not blank; only such a one is replaced, by one that runs the same line, and never twice |
| `ContainerRepair.ReconfiguredMeaning` | src/runtime/docker/lifecycle/recreation.rs:78-91 | What is created has the merged environment, the requested command and the two labels, keeps all other labels, has a mounted runtime directory and restarts by hand only |
| `ContainerRepair.NormalizedComparesEntries` | src/runtime/docker/lifecycle/recreation.rs:272-280 | Comparing sorted environments ignores order and nothing else |
| `ContainerRepair.Server.UpdateConfiguration` | src/runtime/docker/lifecycle/recreation.rs:14-97 | What every successful update leaves, whether it replaced the container or not: the entries of the merged environment, the command for the requested startup line, both labels, and the runtime directory mounted where the environment names it; and for every choice of failing calls: exactly when it succeeds and whether anything changed; exactly when the container is replaced, and by what; that the metadata file is written before that even if there is nothing to change or the update fails later; that a running server runs again on success and is left stopped by a failure after the stop |
| `ContainerRepair.Server.ReplaceStaleContainer` | src/runtime/docker/lifecycle/recreation.rs:217-269 | The new container under the server's name, or the old one as it was; the name is lost exactly if creating the one and renaming the other back both fail |
| `ContainerRepair.Draft.CreateBody` | src/runtime/docker/lifecycle/recreation.rs:394-403 | The configuration that the body is built from |
| `ContainerRepair.Draft.RepairLegacyRuntimeCommand` | src/runtime/docker/configuration.rs:131-142 | Whether it repaired, and the command it leaves |
| `ContainerRepair.Draft.EnsureRuntimeTmpfs` | src/runtime/docker/configuration.rs:151-160 | Mounts the managed directory where the environment names it |

## Left out

- ConsoleHub: the capacity of a broadcast channel is not modelled, because a receiver that lags is told so and loses entries; the proofs are for receivers that keep up.
- ConsoleHub.ViewerMissesNothing: says which entries are shown, not in which order two publishers' sends arrive, because push and send are separate lock sections.
- ConsoleHub: a publish that is dropped half-way is not modelled, because only the supervisor publishes, from its own task.
- ConsoleLifecycle.ConsoleInventory.SynchronizeServers: the purge of senders and histories is a step of `ConsoleHub`; the reported counts are left out.
- ConsoleHub: the flags and notifications that park, suspend or wake a reader only decide when it runs; here it may run or idle at any time, and `refresh_server` is `track_server`.
- ConsoleHub: sequence numbers do not saturate in the step system; `ConsoleHistory` models the saturation.
- ConsoleCursor.ResumeIsLossless: connections are cut at line boundaries, because a line cut in the middle is published in part by `finish` and again in full after the reconnect.
- ConsoleCursor: timestamps are non-negative nanoseconds, already parsed; lines without one are not part of the log.
- LineDecoder: a line is its bytes; the lossy UTF-8 decoding and the truncation suffix are a flag here.
- Protection: a call reads the clock once, where the original may read it twice; `remove` resets a server's quota, and the bounds are for runs without it.
- Protection: counters do not overflow.
- CrashLoop: a scan reads the clock once, where the original reads it again for each comparison; restart counters do not overflow.
- CrashLoop.Monitor.Observe: one scan of one container; which containers are scanned and the stop itself are outside it.
- DiskUsage: the 120-second patience is a waiter that may give up at any time; a missed notification only costs that time.
- DiskUsage.DirSize: the tree does not change while it is scanned, and entries whose metadata cannot be read are left out of it.
- BackupCrypto: AES-GCM is abstract (decryption inverts encryption under the same key, nonce and data, and adds 16 bytes); whether a frame can be forged is a matter of the cipher.
- Restore: no other process touches the directories; links and permissions are not modelled; removing a directory that is no longer needed may leave anything behind; which calls fail does not depend on the order of a listing.
- AgentUpdate: the activation record, where readable, names the path it was written with; the names of failed binaries do not collide with it.
- AgentUpdate: downloading and checking a new artifact is not part of this model.
- ConfigText: a file is its decoded text; bytes that are not UTF-8 are replaced before it.
- ConfigFiles.IniFileIsUpdated: asks for distinct sections and keys, because `.k` and `k` name the same key and the later one wins; so does `ConfigFiles.ApplyIniParser` where it speaks of paths.
- ConfigText.WrittenLinesAreExact: a blank line at the end and a carriage return at the end of a line may be lost (`ConfigText.WrittenFileReads`).
- ConfigFiles.IniFileSettles: is about what can be read; the bytes may still lose blank lines at the end.
- IniConfig: the plain-prefix and the XML parser are not part of this model.
- StructuredConfig.SetPath: the tree is a value, so that nodes are changed in place is not captured; parsing and printing documents and floating-point texts are parameters.
- ContainerRepair: what Docker reports about a created container is taken to be the body it was created from; what an image adds to an unset command or environment is outside it.
- ContainerRepair.Server.UpdateConfiguration: a stop that fails may leave the server running or not, and a write that fails may leave anything in the metadata file; the checks of the id and the startup line are one call that may fail.
- ContainerRepair.Draft.CreateBody: turning the configuration into the body's JSON is a call of the update that may fail; the networks are added by `UpdateConfiguration`.
- ContainerRepair: ports and mounts other than the managed directory are left out; so is a stale container that could not be removed.
- Docker, S3, HTTP, TLS, gRPC translation, host telemetry, database probes and the setup wizard are outside this model.
