# A verified model of the ekilied agent

`ekilied` is a daemon that receives jobs from a control plane over a WebSocket or by polling, claims them, runs an
action, streams the log and reports completion. These Dafny modules model the parts of it that hold concurrent or
algorithmic logic, and prove what those parts keep over every run.

Concurrent protocols are labelled transition systems. A state is a value, a `Step` names who moves and what the
environment decides, `Enabled` and `Next` give the transitions, a run is a sequence of steps, and invariants are proved
for `After(INIT, run)` of every legal run. Objects that the source updates in place are classes whose methods are
proved against functions. Where both views exist they share those functions: `Stored` and `Deleted` for the engine's
tables, `Reports` for the exit paths, `Stamp` for log lines, `Added` for the stream registry.

| modules | what they model |
|---|---|
| `Execution`, `JobEngines` | exit paths and reports of one execution; engine and deploy lock as objects |
| `EngineMachine`, `EngineSafety`, `EngineDrain`, `EngineTrace`, `EngineReports` | any number of racing trigger handlers: safety, termination, what the control plane sees |
| `LogBatchers`, `LogFlow` | the log batcher as an object, and under concurrent flushers |
| `Connection`, `EgressPump`, `LogStreams`, `StreamWorkers`, `Backoff`, `ClientLoop` | one WebSocket client over all its connections: queues and pump, stream registry and workers, reconnect pace |
| `Versions`, `SelfUpdate`, `Updater` | version order, binary swap under failing renames and racing callers, the update loop |
| `Scalars`, `Session`, `WebSocketUrl` | credentials written into the configuration file; the socket URL |
| `Paths` | lexical containment of site and env paths |
| `AuthorizedKeys` | adding and removing SSH keys |
| `Helpers`, `ByteSizes` | output tails; byte counts as they are printed |
| `Text`, `Sums` | Go's string functions; sums over sequences |

## Assumptions

- Engine: a claim response describes the job that was asked for (`HonestStep`). `HandleJobTrigger` marks the asked id
  but executes the answered one. The results that need it require `Honest` runs; `Core`, the trace results and the
  lock results do not. `DishonestAnswerReachesDuplicate` shows what breaks without it, and `MarkReturnedIff` states
  the exact condition for one call.
- Stream registry: exactness needs that no stream id is reused while its worker lives (`CleanStarts`). The limits and
  the teardown do not. `StartIsSafeIff` gives the exact condition for one start.
- Environment: every foreign call returns at last. What it returns is a choice in a step label or a parameter.
- Self-update: what `os.Executable` answers is a choice at every call; how the runtime finds it is not part of this
  model. `ExecutableKeptIff`, `KeptAtOnePathIff`, `OnlyTheNewestTwo`, `SecondSwapLosesRunning` and
  `RetryAfterStrandingIff` assume that it answers the same path every time, `FollowedNeverLost` that it answers where
  the running binary is. `KeptIff` and `ReturnTellsTheTruth` assume neither.
- Versions: a release that was swapped in and restarted reports its tag as its own version (`Cycle.applied`).
- Strings are sequences of Unicode scalar values. Go's table of printable characters beyond ASCII is a function
  parameter. Mutexes make each locked region one step.
- Floating point: `float64` keeps 53 significant bits, and conversion and "%.1f" round to nearest, ties to even.

## Where code and documentation differ

- docs/walkthrough.md:252-253 gives a fixed five-second reconnect delay. The code backs off exponentially with jitter,
  and the model follows the code.
- The comment on `splitLines` says that empty trailing content is preserved. The code drops the empty piece after a
  final newline; all pieces are kept exactly for a text that is not empty and does not end in a newline
  (`NothingDroppedIff`).
- The comment on `SaveSession` says that all other bytes are preserved. That holds exactly for a file that ends in a
  newline and has both keys (`OtherLinesUnchangedIff`). Otherwise one empty piece is added (`OtherLinesKept`): the final
  newline if it was missing, or an empty line between the old text and the keys appended behind its final newline, as
  on every first registration of such a file (`FirstSave`). Any read error counts as an empty file.
- The comment on `yamlScalar` says that it quotes whatever would change its meaning. It does not look at leading
  indicators, at the spellings of null, or at unprintable characters (`ReadsBackIff`, `PlainButNotText`).
- A file that ends in the middle of a line makes `addSSHKey` glue the key to that line (`AddMakesPresentIff`).
- `RestartAgent` promises that the old binary keeps running when a restart fails, and the next cycle then offers the
  same release again. Whether the running binary stays on the disk depends on the path each cycle is told: it is kept
  exactly while every cycle spares it (`KeptIff`). At one fixed path, a cycle that finds it moved to the backup loses
  it as soon as it removes or overwrites that backup, with or without a second swap (`KeptAtOnePathIff`); at a path
  that follows the running binary it is never lost (`FollowedNeverLost`).
- The comment on `reexecSelf` takes the path it looks up to be the one just swapped. That is what decides which binary
  the re-exec runs (`ReexecRunsNewIff`).

## Model

| member | source | states |
|---|---|---|
| EngineSafety.CoreAlways | internals/jobengine/jobengine.go:264-370 | In every reachable state of every interleaving, whatever the control plane answers: `active` names exactly the executing handlers, the lock table exactly the lock holders (stored value always 0), and the channel length is the number of slot holders, never above 10. |
| EngineSafety.CoreStep | internals/jobengine/jobengine.go:348-370 | Each single step, defers included, keeps that invariant. |
| EngineSafety.MarksAlways | internals/jobengine/jobengine.go:297-352 | With an honest control plane, `dispatched` names exactly the handlers between mark and clear, and each executes the id it was triggered for. |
| EngineSafety.MarksStep | internals/jobengine/jobengine.go:270-277 | Each single step keeps that exactness, using the invariant on `active`. |
| EngineSafety.DispatchedHasOneOwner | internals/jobengine/jobengine.go:264-278 | Every dispatched id has exactly one live handler, and nothing is in `active` that is not dispatched. |
| EngineSafety.NoJobRunsTwiceAtOnce | internals/jobengine/jobengine.go:351-355 | Two handlers never execute the same job at the same time, even under a dishonest control plane. |
| EngineSafety.AlreadyExecutingUnreachable | internals/jobengine/jobengine.go:351-355 | Reached through the handlers, Execute never takes its "already executing" branch, the only one that leaves the dispatch mark behind. |
| EngineSafety.SemaphoreNeverBlocksRelease | internals/jobengine/jobengine.go:362-370 | A handler about to run its deferred receive always finds an entry, and at most ten handlers hold one. |
| EngineSafety.OneLockHolderPerSite | internals/jobengine/jobengine.go:58-73 | Per site there is at most one deploy or sync under way, and whoever runs Release is that one, although the table cannot tell. |
| EngineSafety.DishonestAnswerReachesDuplicate | internals/jobengine/jobengine.go:311-315 | Concrete run: a claim response naming another job makes the duplicate branch reachable and strands that job's mark. |
| EngineSafety.DishonestPrefix | internals/jobengine/jobengine.go:311-315 | The first five steps of that run and the state they lead to. |
| JobEngines.MarkReturnedIff | internals/jobengine/jobengine.go:297-316 | A first trigger gives its mark back if and only if the claim failed or the answer names the asked, inactive job; another id in the answer always leaks the mark. |
| EngineDrain.MeasureDrops | internals/jobengine/jobengine.go:297-569 | Every step except a new trigger and a log batch uses up a finite measure; a log batch gives nothing back. |
| EngineDrain.RunsAreBounded | internals/jobengine/jobengine.go:297-569 | So a run without new triggers advances only finitely often, with an explicit bound. |
| EngineDrain.LiveHandlerMoves | internals/jobengine/jobengine.go:348-384 | From any reachable state with a live handler some handler can move without new triggers or cancellation: the engine cannot deadlock. |
| EngineDrain.SlotHolderMoves | internals/jobengine/jobengine.go:362-384 | Whoever holds a slot can itself move, so a full semaphore never blocks for good. |
| EngineDrain.QuietMeansFree | internals/jobengine/jobengine.go:348-384 | With no live handler, `active`, semaphore and lock table are empty. |
| EngineDrain.QuietMeansUnmarked | internals/jobengine/jobengine.go:264-278 | With no live handler and honest answers, `dispatched` is empty. |
| EngineDrain.EngineDrains | internals/jobengine/jobengine.go:297-384 | From any reachable state, any arrival-free continuation advances a bounded number of times, and where it cannot advance all handlers are done and all four tables are empty, whether jobs succeeded, failed, panicked or were cancelled. |
| EngineTrace.ClaimPrecedesReports | internals/jobengine/jobengine.go:297-345 | Every start, log batch and completion of a job in the trace comes after the grant of that job to that very handler. |
| EngineTrace.RefusedClaimDoesNothing | internals/jobengine/jobengine.go:305-341 | A handler whose claim got a conflict, an error or a timeout produces no start, log batch or completion at any time. |
| EngineTrace.RunsNeverOutnumberGrants | internals/jobengine/jobengine.go:289-345 | At every moment a job has been started at most as often as it was granted. |
| EngineTrace.TraceAlways | internals/jobengine/jobengine.go:297-345 | The trace invariant behind the two claims above holds along every run. |
| JobEngines.DeleteUndoesStore | internals/jobengine/jobengine.go:58-73 | A successful load-or-store followed by a delete restores the table; a failed one changes nothing. The lock table, the active set and the dispatch marks all rest on it. |
| JobEngines.DeployLock.TryAcquire | internals/jobengine/jobengine.go:58-66 | Succeeds exactly for a free site; table afterwards as Stored says. |
| JobEngines.DeployLock.Release | internals/jobengine/jobengine.go:69-73 | Removes that site and nothing else. |
| JobEngines.DeployLock.Guarded | internals/jobengine/sites.go:83-87 | The acquire/defer frame shared by deploy and sync leaves the lock table as it was on error, success and panic, and refuses exactly a busy site. |
| JobEngines.JobEngine.MarkDispatched | internals/jobengine/jobengine.go:270-273 | True for the first marker only; the id is marked afterwards. |
| JobEngines.JobEngine.ClearDispatched | internals/jobengine/jobengine.go:275-277 | Removes exactly that mark. |
| JobEngines.JobEngine.Execute | internals/jobengine/jobengine.go:348-569 | Sequentially: which of duplicate, cancelled or ran; all three tables restored; no client call unless it ran; the reports made. |
| JobEngines.JobEngine.HandleJobTrigger | internals/jobengine/jobengine.go:297-316 | Marks after the whole call, no client call on a refused claim, runs exactly when first, granted, not active and given a slot. |
| JobEngines.JobEngine.HandleJobTriggerFull | internals/jobengine/jobengine.go:325-345 | The same for the full trigger, which executes the asked id whatever the answer names. |
| Execution.ExactlyOneReport | internals/jobengine/jobengine.go:397-568 | With a steady environment every exit path reports exactly once, except a failed re-exec outside systemd, which reports success and then failure. |
| Execution.OneReportIff | internals/jobengine/restart.go:87-111 | The exact condition for one report when the three environment checks may disagree. |
| Execution.FailedRestartReportsSuccessIff | internals/jobengine/restart.go:98-109 | A restart that failed was reported as success if and only if the first check said "not under systemd"; the last report is always the failure. |
| Execution.FinishSelfUpdate | internals/jobengine/restart.go:87-111 | Order of flush, early report, restart and late report; returns what the restart led to. |
| Execution.ReportJobPanic | internals/jobengine/jobengine.go:575-592 | Adds exactly one failed report when the client works, and never panics itself. |
| Execution.RunBody | internals/jobengine/jobengine.go:397-568 | Each exit path makes the reports of its kind, or panics and makes none. |
| Execution.RunHoldingSlot | internals/jobengine/jobengine.go:362-568 | Body, recovery and final flush together: if no client call panicked, the reports are exactly those of the exit path. |
| EngineReports.DoneHandlerReported | internals/jobengine/jobengine.go:348-569 | In every interleaving, a handler that is done and none of whose client calls panicked has started at most once and reported exactly what its exit path calls for, in order, or nothing if it never started. |
| EngineReports.DoneHandlerReportedOnce | internals/jobengine/jobengine.go:348-569 | With a steady environment that is one report, except success and then failure for a failed re-exec. |
| EngineReports.GrantedStartsIff | internals/jobengine/jobengine.go:357-366 | With an honest control plane, a granted job whose handler is done was started, and once, if and only if the handler did not give up waiting for a slot; one that gave up never reports anything. |
| EngineReports.GrantedReported | internals/jobengine/jobengine.go:348-569 | Unless one of its client calls panics, such a handler reports exactly what its exit path calls for, or nothing if the context ended while it waited. |
| EngineReports.ThreeReportsAtMost | internals/jobengine/jobengine.go:376-384 | Whatever client calls panic, no handler reports more than three times in any run. |
| EngineReports.AlwaysAccounted | internals/jobengine/jobengine.go:348-569 | The account of reports made and still due holds along every run without such panics. |
| LogBatchers.SplitLines | internals/jobengine/helpers.go:127-140 | The loop yields the newline-separated pieces without the empty piece after a final newline. |
| LogBatchers.NothingDroppedIff | internals/jobengine/helpers.go:126-140 | All pieces are kept if and only if the text is not empty and does not end in a newline. |
| LogBatchers.ChunkKeepsBytes | internals/jobengine/jobengine.go:156-171 | A chunk loses nothing but its newlines. |
| LogBatchers.WritesKeepBytes | internals/jobengine/jobengine.go:117-171 | For any sequence of Write calls the line texts in sequence order concatenate to the written bytes minus newlines. |
| LogBatchers.ChunkingDoesNotMatter | internals/jobengine/jobengine.go:117-171 | Two chunkings of the same output deliver the same text. |
| LogBatchers.CutAtLineEnd | internals/jobengine/helpers.go:127-140 | Cutting a chunk at a line end changes no line at all. |
| LogBatchers.LogBatcher.AppendLine | internals/jobengine/jobengine.go:138-154 | One line with the next number is added at the end of everything ever appended. |
| LogBatchers.LogBatcher.Writef | internals/jobengine/jobengine.go:129-133 | Engine lines share the same numbering. |
| LogBatchers.LogBatcher.Append | internals/jobengine/jobengine.go:156-171 | All non-empty lines of the chunk, in order, numbered without gaps; reports the full length. |
| LogBatchers.LogBatcher.AppendPieces | internals/jobengine/jobengine.go:164-169 | The loop of append over the pieces, empty ones skipped. |
| LogBatchers.LogBatcher.Write | internals/jobengine/jobengine.go:117-119 | Standard output lines, level info. |
| LogBatchers.LogBatcher.CopyOutput | internals/jobengine/jobengine.go:117-119 | Any number of Write calls in a row append exactly the lines WritesKeepBytes and ChunkingDoesNotMatter speak about. |
| LogBatchers.LogBatcher.WriteErr | internals/jobengine/jobengine.go:122-124 | Standard error lines, level error. |
| LogBatchers.LogBatcher.FlushNowWith | internals/jobengine/jobengine.go:195-208 | The whole buffer leaves as one batch, handed over in exactly one call, or no call if it was empty; everything appended stays accounted for. |
| LogBatchers.LogBatcher.FlushNow | internals/jobengine/jobengine.go:190-192 | As above, on the context that parent cancellation or Close may have ended. |
| LogBatchers.LogBatcher.MaybeWriteHeartbeat | internals/jobengine/jobengine.go:228-237 | One debug line exactly after 30 quiet seconds, and the quiet period starts anew. |
| LogBatchers.LogBatcher.Close | internals/jobengine/jobengine.go:243-250 | Idempotent; the first call leaves nothing buffered and sends the rest on a live context even if the parent is cancelled. |
| LogFlow.EachLineInOnePlace | internals/jobengine/jobengine.go:138-208 | With any number of concurrent flushers every line is at every moment in exactly one of: buffer, one batch under way, delivered, dropped; unassigned numbers are nowhere. |
| LogFlow.KindsDoNotMix | internals/jobengine/jobengine.go:145-171 | However writers and flushers interleave, the lines of each kind (output, error output, engine, heartbeat) are, in order, exactly what the appends of that kind brought. |
| LogFlow.OutputBytesKept | internals/jobengine/jobengine.go:117-208 | So in every run the output lines in sequence order concatenate to the written bytes minus newlines, whatever heartbeats, engine lines, error output and flushes come in between. |
| LogFlow.BatchesAreIntervals | internals/jobengine/jobengine.go:195-208 | Each batch is a contiguous interval of the numbering and starts where the previously taken one ended. |
| LogFlow.NoLineSentTwice | internals/jobengine/jobengine.go:195-208 | No line is ever handed to StreamLogs twice. |
| LogFlow.CloseLeavesNothingBehind | internals/jobengine/jobengine.go:243-250 | When Close has returned, each line appended before it began is out of the buffer and in exactly one batch, and the batch Close took is finished. |
| LogFlow.CloseSendsLive | internals/jobengine/jobengine.go:243-250 | A batch in flight from Close can still succeed whatever happened to the parent context. |
| LogFlow.AlwaysConserved | internals/jobengine/jobengine.go:138-208 | Batches in order followed by the buffer are the lines 1..seq, in every reachable state. |
| LogFlow.AlwaysCloseSound | internals/jobengine/jobengine.go:243-250 | The invariant behind the two claims about Close holds along every run. |
| EgressPump.HighWaitsForOneLowAtMost | internals/agent/websocket.go:309-346 | Between the queueing and the writing of a high-priority message at most one low-priority message is written, over whole runs and across reconnects. |
| EgressPump.OneLowWriteHappens | internals/agent/websocket.go:323-341 | That bound is attained: a legal run writes one low message between the queueing and the writing of a high one. |
| EgressPump.NoPumpOutlivesItsConnection | internals/agent/websocket.go:472-482 | At most one egress pump is alive, only of the connection being served or closed, and none once connectOnce has returned. |
| EgressPump.DequeuedIsWrittenOrLost | internals/agent/websocket.go:309-346 | Per class: accepted = retired + held + queued, retired in acceptance order, at most one held. |
| EgressPump.OneLossPerConnection | internals/agent/websocket.go:309-346 | Two lost messages of a class belong to different connections. |
| EgressPump.AlwaysOrderly | internals/agent/websocket.go:309-346 | One pump, first-in-first-out order and bounded losses hold along every run. |
| EgressPump.AlwaysPrompt | internals/agent/websocket.go:323-341 | The priority invariant holds along every run. |
| Backoff.CeilingValues | internals/agent/websocket.go:189-193 | The delays before jitter: 1 to 64 seconds doubling, then two minutes for good. |
| Backoff.ReconnectDelay | internals/agent/websocket.go:237-247 | The loop never exceeds 128 seconds on the way, and the result lies between half the ceiling and the ceiling. |
| ClientLoop.Client.ConnectOnce | internals/agent/websocket.go:257-483 | One pass through dial, dispatch and teardown never ends in a nil error; a failed dial changes nothing; otherwise the client ends disconnected, with the last non-empty token and every trigger handed on in order. |
| ClientLoop.Client.Dispatch | internals/agent/websocket.go:370-470 | The dispatch loop hands on exactly the decodable triggers, in order, and keeps the last non-empty token, whatever else arrives. |
| ClientLoop.Client.Connect | internals/agent/websocket.go:197-232 | Every pass is followed by a delay, so the delay-free branch is never taken, and n passes take at least 9.1 n - 30 seconds. |
| Backoff.PotentialBound | internals/agent/websocket.go:197-232 | The potential argument: elapsed time plus the credit of the attempt counter is at least 9.1 seconds per pass. |
| Backoff.PaceBound | internals/agent/websocket.go:197-232 | At least 9.1 n - 30 seconds, however short and long connections alternate. |
| Backoff.PaceBoundNine | internals/agent/websocket.go:197-232 | At least 9 n - 29.5 seconds, better for few passes. |
| Backoff.FastestPace | internals/agent/websocket.go:197-232 | A loop that pays exactly the potential at every pass. |
| Backoff.PaceBoundIsTight | internals/agent/websocket.go:197-232 | For every multiple of five passes some loop attains 9.1 n - 30 exactly. |
| LogStreams.LogStreams.Add | internals/agent/logstream.go:42-53 | Accepts exactly unused ids below the limit; distinctness and freshness of registered cancels kept. |
| LogStreams.LogStreams.Remove | internals/agent/logstream.go:57-61 | Forgets the id without calling anything. |
| LogStreams.LogStreams.Stop | internals/agent/logstream.go:64-75 | Calls the registered cancel once and forgets it; reports whether there was one. |
| LogStreams.LogStreams.Collect | internals/agent/logstream.go:80-86 | Under the lock everything registered leaves, each cancel listed once. |
| LogStreams.LogStreams.CallEach | internals/agent/logstream.go:87-89 | Behind the lock the listed cancels are called in that order. |
| LogStreams.LogStreams.StopAll | internals/agent/logstream.go:79-90 | Empties the registry and calls exactly the cancels that were in it, none twice. |
| StreamWorkers.StreamsWithinLimits | internals/agent/logstream.go:102-146 | In every reachable state: at most five entries, registered cancels uncalled, none called twice, no send after close, no line of a channel lost or invented. |
| StreamWorkers.TeardownLeavesNothing | internals/agent/websocket.go:472-482 | Once connectOnce has returned no stream is registered, no worker lives, every channel is closed and drained. |
| StreamWorkers.RegistryExact | internals/agent/logstream.go:129-142 | If no id is reused while its worker lives, the registry is exactly the live, unstopped workers in every reachable state. |
| StreamWorkers.WorkerCanFinish | internals/agent/logstream.go:184-219 | A live worker can always finish by itself, and then removes whatever is registered under its id. |
| StreamWorkers.StartIsSafeIff | internals/agent/logstream.go:129-142 | An accepted start keeps the registry exact in every start-free future if and only if no live worker still carries the id: a stopped worker that is still draining breaks it. |
| StreamWorkers.AlwaysSound | internals/agent/logstream.go:31-90 | Registry, connection and worker invariants hold along every run. |
| WebSocketUrl.Derive | internals/config/config.go:212-253 | Which error for which input, https assumed without a scheme, and the socket URL otherwise. |
| WebSocketUrl.EndpointReached | internals/config/config.go:237-247 | Every derived path ends in the full endpoint, and dropping the endpoint, the prefix or nothing from the input gives the same base. |
| WebSocketUrl.DerivingTwice | internals/config/config.go:212-253 | A derived URL is a fixed point of the derivation. |
| WebSocketUrl.SpellingsAgreeIff | internals/config/config.go:208-211 | Bare base, base with prefix and full endpoint give the same socket exactly if the base does not itself end in a slash, the prefix or the endpoint. |
| Versions.CompareVersions | internals/jobengine/self_update.go:42-66 | The loop returns the three-way lexicographic order of the zero-padded component vectors. |
| Versions.CompareParts | internals/jobengine/self_update.go:49-65 | The index loop alone, on split versions. |
| Versions.OrderCorrect | internals/jobengine/self_update.go:42-66 | The value is an order: -1, 0 or 1 exactly as the first difference says. |
| Versions.CompareAntisymmetric | internals/jobengine/self_update.go:42-66 | Swapping the arguments flips the sign. |
| Versions.CompareTransitive | internals/jobengine/self_update.go:42-66 | The order is transitive, strictly if one link is strict. |
| Versions.CompareRendered | internals/jobengine/self_update.go:42-66 | On plain numeric versions, with or without "v", the result is the precedence of section 11 of Semantic Versioning 2.0.0 after clamping components to 64 bits. |
| Versions.OrderedCorrectlyIff | internals/jobengine/self_update.go:42-66 | A version is ordered correctly against all others if and only if all its components are below the largest 64-bit int. |
| Versions.VersionsOnlyIncrease | internals/jobengine/self_update.go:94-103 | Along any chain of accepted updates and restarts the running version is unchanged or strictly newer than every earlier one, if a restarted release reports its tag as its version. |
| SelfUpdate.Installation.SelfUpdate | internals/jobengine/self_update.go:112-218 | Guard left as found; refused exactly when it was set; success exactly if prepared, an executable is there and both renames work; the whole disk afterwards, for any executable path. |
| SelfUpdate.Installation.Swap | internals/jobengine/self_update.go:190-217 | The region behind the guard, with the same account of the disk. |
| SelfUpdate.FailureKeepsExecutableIff | internals/jobengine/self_update.go:196-205 | A failed update keeps the executable in its place exactly unless it had been moved away and the restoring rename failed, and then the backup has it. |
| SelfUpdate.OneCallerInside | internals/jobengine/self_update.go:112-116 | However many callers race, at most one is between the guard and its reset. |
| SelfUpdate.ReturnTellsTheTruth | internals/jobengine/self_update.go:112-218 | In every interleaving, whatever path each caller is told: success means new executable and old one in the backup; an error means the old executable unless the restoring rename failed; no other path changed, and no caller leaves its guard set. |
| SelfUpdate.ExecutableKeptIff | internals/jobengine/self_update.go:190-217 | If every caller is told the same path, then with no update in progress that path holds a binary if and only if no restoring rename ever failed. |
| SelfUpdate.AlwaysSound | internals/jobengine/self_update.go:112-218 | Guard and disk invariants hold along every run. |
| Updater.CheckForUpdate | internals/jobengine/self_update.go:70-107 | Offers a tag exactly for a decodable, non-empty, strictly newer release; which answers count as errors. |
| Updater.CheckAndUpdate | internals/agent/agent.go:183-208 | Stops the loop exactly when a newer release was swapped in and the restart initiated; the disk afterwards. |
| Updater.UpdateCheckLoop | internals/agent/agent.go:161-179 | Leaves at the first cycle that swaps and restarts, else runs until its context ends. |
| Updater.KeptIff | internals/agent/agent.go:183-208 | Whatever path each cycle is told: a binary on the disk that is not downloaded again is still there after any series of cycles if and only if every cycle spared it, that is, stopped early, found a copy outside the backup, or left the backup alone. |
| Updater.KeptByTurnIff | internals/jobengine/self_update.go:190-217 | The same for one cycle. |
| Updater.KeptAtOnePathIff | internals/agent/agent.go:183-208 | If every cycle is told the same path, the running binary is kept if and only if no cycle that found it moved away got as far as removing or overwriting the backup. |
| Updater.FollowedNeverLost | internals/jobengine/self_update.go:190-217 | If every cycle is told where the running binary is at that moment, that binary is never lost. |
| Updater.ReexecRunsNewIff | internals/jobengine/reexec_unix.go:15-31 | After a swap a re-exec runs the new binary if and only if the second lookup answers the path that was swapped; from the backup path it runs the old one. |
| Updater.OnlyTheNewestTwo | internals/agent/agent.go:183-208 | If every cycle is told the same path, the disk holds at most the two newest of the running binary and those swapped in since, the newest at that path unless it is empty. |
| Updater.SecondSwapLosesRunning | internals/agent/agent.go:202-205 | At one path, when restarts keep failing, two swaps remove the running binary from the disk. |
| Updater.RetryAfterStrandingIff | internals/jobengine/self_update.go:190-205 | After a failed restoring rename the next cycle at the same path deletes the last copy if and only if it finds a release, gets past preparation and the removal works. |
| Paths.ContainedIff | internals/jobengine/validate.go:92-98 | For any two paths: contained if and only if both are absolute or both relative, the cleaned root is a prefix of the cleaned target, and the target does not climb right behind it. |
| Paths.AbsoluteContainedIff | internals/jobengine/validate.go:92-98 | For an absolute root only the prefix is left: an absolute target never climbs. |
| Paths.SiteDirNeverEscapes | internals/jobengine/validate.go:101-110 | A valid site name is all siteDirPath asks for: its containment error is unreachable. |
| Paths.RepoIsPlain | internals/jobengine/validate.go:113-119 | The checkout path of a valid site is the root plus two plain components. |
| Paths.ResolveInIff | internals/jobengine/env.go:18-34 | From any cleaned checkout: accepted if and only if relative and ending inside it. |
| Paths.EnvPathAcceptedIff | internals/jobengine/env.go:12-34 | Accepts exactly relative paths of valid sites whose component walk ends inside the checkout, and answers with that place plus ".env". |
| Paths.EnvPathStaysInside | internals/jobengine/env.go:12-34 | Every answer extends the checkout by plain components only, no ".." left. |
| Paths.NonClimbingAccepted | internals/jobengine/env.go:12-34 | Every relative path that does not climb out of its own start is accepted, with the expected answer. |
| Paths.NeverClimbed | internals/jobengine/env.go:25-28 | A relative walk that ends without ".." leads to the same place below any base. |
| Scalars.ScalarRoundTrip | internals/config/config.go:360-368 | A credential is written on one line and, with quoted text unescaped and other text taken literally, comes back as itself. |
| Scalars.ReadsBackIff | internals/config/config.go:358-368 | Under the plain-scalar and null rules of YAML 1.2.2 a credential comes back as itself if and only if it is empty, or gets quoted, or is a plain scalar. |
| Scalars.PlainButNotText | internals/config/config.go:358-368 | Concrete credentials that are written unquoted and do not come back: `null`, `[x`, `~`. |
| Scalars.UnescapeAll | internals/config/config.go:365 | Undoing the escapes of strconv.Quote gives the text back. |
| Session.SaveSession | internals/config/config.go:269-308 | Rejections, and the text written otherwise. |
| Session.RewriteLines | internals/config/config.go:282-304 | The loop with its two flags replaces every flat occurrence and appends a missing key. |
| Session.KeyOfKeyLine | internals/config/config.go:343-356 | A written credential line is recognised under its own key again. |
| Session.SecondSaveWins | internals/config/config.go:277-308 | Saving twice is saving the second credentials only. |
| Session.SavingIsIdempotent | internals/config/config.go:277-308 | Saving the same credentials again changes nothing. |
| Session.CredentialsReadBack | internals/config/config.go:277-308 | Every flat occurrence of both keys in the saved text reads back the saved value, and both occur. |
| Session.CredentialsFound | internals/config/config.go:277-308 | Where in the saved text a line for each key is, with the saved value. |
| Session.SaveChangesNothingIff | internals/config/config.go:277-308 | A text is left alone if and only if it ends in a newline, has both keys, and all their occurrences are already as the save would write them. |
| Session.OtherLinesKept | internals/config/config.go:264-308 | All other lines keep content and order, with exactly one empty piece more behind them unless the old file ended in a newline and had both keys. |
| Session.OtherLinesUnchangedIff | internals/config/config.go:264-308 | The other lines are exactly as before if and only if the file could be read, ended in a newline and had both keys. |
| Session.FirstSave | internals/config/config.go:298-308 | A first registration writes the old text, a newline and the two lines, so a text that ends in a newline gets an empty line in front of them. |
| AuthorizedKeys.KeyFile.AddSSHKey | internals/jobengine/ssh.go:14-37 | Refuses only the empty key; appends exactly if no line stands for the key. |
| AuthorizedKeys.KeyFile.RemoveSSHKey | internals/jobengine/ssh.go:40-67 | Refuses only the empty key; leaves a missing file alone; removes exactly the lines that stand for the key. |
| AuthorizedKeys.KeyExists | internals/jobengine/ssh.go:70-77 | Finds the key exactly if some line stands for it. |
| AuthorizedKeys.KeepOthers | internals/jobengine/ssh.go:52-58 | The loop keeps exactly the other lines, in order. |
| AuthorizedKeys.AddMakesPresentIff | internals/jobengine/ssh.go:14-37 | For any file and any key: after adding, the key is found if and only if it was there, or is blank, or stays on one line once trimmed and is not glued to a non-blank end of the file. |
| AuthorizedKeys.LineStandsIff | internals/jobengine/ssh.go:70-77 | Some line of a text stands for the whole text if and only if trimming leaves one line. |
| AuthorizedKeys.AddIsIdempotentIff | internals/jobengine/ssh.go:14-37 | Adding twice is adding once under exactly that condition, for any file and any key. |
| AuthorizedKeys.AddOnTerminated | internals/jobengine/ssh.go:14-37 | On a newline-terminated file adding is idempotent, keeps it terminated and leaves other keys alone. |
| AuthorizedKeys.RemoveMakesAbsent | internals/jobengine/ssh.go:40-67 | Removing makes the key absent, keeps every other key, and keeps a terminated file terminated. |
| AuthorizedKeys.RemoveUndoesAddIff | internals/jobengine/ssh.go:14-67 | On a newline-terminated file remove undoes add if and only if the key was absent and carries no newline. |
| AuthorizedKeys.OneLineAtMost | internals/jobengine/ssh.go:52-58 | At most one line of a key text can stand for the whole of it. |
| Helpers.TailWriter.Write | internals/jobengine/helpers.go:36-47 | The chunk is handed on if there is a writer behind; the buffer is the end of old buffer and chunk; the whole chunk is reported written. |
| Helpers.BufferIsTail | internals/jobengine/helpers.go:24-47 | After any series of writes the buffer is the last max bytes of all output, however it was chunked. |
| ByteSizes.Scaling | internals/jobengine/helpers.go:97-107 | For every 64-bit count: no overflow, the prefix index stays inside the six prefixes, and the quotient is at least 1 and less than 1024. |
| ByteSizes.FmtBytes | internals/jobengine/helpers.go:97-108 | The text printed is the one of the unique well-scaled size. |
| ByteSizes.PrintedQuotient | internals/jobengine/helpers.go:107 | The printed tenths lie between 1.0 and 1024.0 and within half a tenth of the float quotient; "1024.0" is printed exactly from 1023.95 units on. |
| ByteSizes.ReadsThousandIff | internals/jobengine/helpers.go:107 | For counts below 2^53 that is a condition on the count itself. |
| ByteSizes.ScalingIsUnique | internals/jobengine/helpers.go:97-108 | Only one size is well scaled for a count. |

## Left out

- Foreign calls: HTTP, WebSocket dial, read and ping, JSON, Docker, git, nginx, certbot, supervisor, systemctl and
  metrics. Their results are choices of the environment.
- Bodies of the individual actions; only their exit shapes matter here.
- GORM and SQLite identity storage, and the YAML library. `Session` works on flat lines, so block scalars and nested
  keys are outside the model; `ReadAsYaml` follows the standard, not the library.
- Configuration layering (flags, environment, defaults), supervisor program names, daemon names, the 4 KB bound on
  error texts, `truncateLogLine`, `truncateError` and `formatDuration`: one branch each, or no guarantee in the code.
- Validation of `log_stream` requests and clamping of `tail`: one branch per field.
- Crashes between the two renames of a swap, and panics in the batcher's background goroutines or in the deferred
  `lb.Close`: the code gives no guarantee there.
- Replacement of the process by a successful re-exec: a run of the engine machine ends before it.
- Delivery of log lines and their order of arrival: a failed batch is dropped, two flushers may overtake each other,
  and Close may cancel a flush of the ticker. Conservation and partition are what is proved.
- A limit on live stream workers: `stop` frees the slot before the worker has gone.
- Wrap-around of the 64-bit sequence counter, timestamps of log lines, and a second concurrent caller of Close that
  waits for the first.
- Temporary file, mode and rename of `SaveSession`, and I/O errors of `authorized_keys`.
- URL parsing and printing; percent-encoded paths and user information are not part of `WebSocketUrl.Url`.
- Mutual interference of the update loop with other callers of SelfUpdate: `Updater` runs undisturbed, `SelfUpdate`
  covers the races.
- The error text of `filepath.Rel`; for a relative base that lies above the target `Rel` may refuse or answer with a
  climbing path, and `isContained` says no to both.
