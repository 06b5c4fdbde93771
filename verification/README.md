# HiveMI verification project

A Dafny model of the parts of HiveMI that keep state over long runs, with proofs of what those parts promise. It
covers five areas.

* **Stream reassembly** (`TextLines`, `ToolCalls`, `StreamModel`, `OpenClawInterceptor`, `OpenClawClient`). The agent
  daemon reads a model's answer as a stream of server-sent events, cut into reads anywhere. Two parsers turn it into
  content and a session id; an interceptor glues tool-call fragments together per index. JSON decoding is a parameter.
* **Task leases** (`RegistryModel`, `RequestProofs`, `LeaseProofs`, `TimeProofs`, `RegistryServer`). The registry's tasks, agents and clock, and
  what changes them: the requests on tasks, registration, heartbeats, telemetry, the status writes of the other
  services, and the four background jobs. Writes through the raw task route are left out, with one exception; see the
  last section.
* **Deploys** (`DeployModel`, `DeployOrchestrator`). Eight bootstrap phases, the four deploy phases that follow them,
  and the registry row that keeps a copy by name. Every call to the outside world succeeds or throws as a given oracle
  says, and another oracle says which updates of the row never arrive.
* **Progress reports and retry delays** (`ReporterModel`, `ReportProofs`, `ProgressReporter`, `Backoff`). The reporter is a machine
  whose steps are the stretches between two awaits; the delays are exact reals.
* **Configuration merge and cost report** (`DeepMerge`, `CostReport`, `CostProofs`). JSON objects as finite maps; dollars as exact
  reals rounded half up to cents.

Where the source updates objects in place the model is a class, and each method is proved to do what a function on
values says; the theorems are then about those functions and the runs they make up. What an operation does is also said
apart from the function that computes it: by the events since a claim, the steps since a report came to the front, the
fields of a fragment, the first call that failed. `dafny verify dfyconfig.toml`
checks the whole project.

## Where the code differs from what is said of it

The model follows the code in each case.

* The two stream parsers do not always agree. A payload of JSON `null` makes the intercepting parser throw, while the
  plain parser passes over the line. When interception is enabled, so does a tool-call list that is not iterable or has
  a `null` entry, while the plain parser takes the content and the id of such a payload.
  `ParseSseStreamWithInterceptor` states the exact condition and `NullPayloadExample` gives an input. Both parsers
  ignore a last line that has no newline.
* The comment on cancellation (`apps/registry/src/routes/tasks.ts:412-414`) says that the agent's completion report
  ends a cancelling task. The handler turns that report down, since it wants a locked task (`tasks.ts:163`), and no
  sweep touches a cancelling task. `CancellingIsStuck` and `CompletionNeedsLock` say so for all runs. Exactly a retry,
  a requeue of the holder's tasks, a deletion, and the daemon's own raw write of the final status end it
  (`CancellingEndsIff`). The same comment lists status 409 for a task already cancelling; the handler answers 200.
* The lock sweep is said to keep a task whose agent is still alive. It looks at the agent's status, and that may say
  otherwise of an agent heard of a moment ago. `ReleasedIff` gives the exact condition over every run: the holder is
  gone, or some event has marked it down and none has restored its status since. Telemetry, called a proof of liveness
  (`apps/registry/src/routes/telemetry.ts:27`), refreshes the heartbeat but restores no status (`TelemetryExample`);
  the hourly repair of phantoms marks an agent offline whatever its heartbeat (`PhantomExample`), and so does the
  daemon's goodbye. `LeaseSafety` is what holds when nothing of that kind has come since the holder's last heartbeat or
  registration: then only an undeploy, which marks the holder destroyed, costs a live holder its task.
* The repair of phantoms takes an unreachable agent back to offline. `MovesUpIff` lists everything that moves an agent
  up.
* A deploy can be marked failed with all four phases completed, when setting the agent idle or reporting readiness
  throws after the last phase. Such a deploy cannot be retried without naming a phase (`BrokenDeployIsRetryableIff`).
  A failure between cloud-init and the ssh connection is blamed on no bootstrap phase (`Bootstrap`).
* A retry sends `error: undefined`, which the registry takes as no change: the row keeps its old error, and its old
  completion time too (`Orchestrator.RetryPhase`). A retry that is interrupted after its first write leaves a deploy that
  is no longer marked failed and so cannot be retried again. A retry from a phase later than the failed one breaks the shape of the phase list
  (`RetryKeepsShapeIff`, `RetryTooLateExample`).
* The progress reporter promises an event that finds the timer set to include it in the next flush
  (`packages/agent-daemon/src/progress-reporter.ts:157`). If a flush is running when that timer fires, the request is
  dropped; and an event that asks for a flush while one is running gets no timer at all. Nothing is then left to flush
  the queue (`StrandedIff`, `StrandedExample`). Stopping a task during a flush loses the queue (`StopLosesNothingIff`,
  `StopLosesExample`).
* The minimum interval between progress reports (`progress-reporter.ts:6`) is kept (`MinimumInterval`) except after three
  kinds of step (`SpacedIff`): a stop that flushes within the window, a task that starts after a flush, and an event
  handled before a timer that is already due. Each has an example.
* The first sleep of `sendWithRetry` is not capped (`ClosedFormIff`, `FirstSleepExample`).
* `deepMerge` is not associative (`NotAssociativeExample`); `AssociativeIff` gives the triples on which it is.
* `docs/API.md` says that a heartbeat sets the agent to idle; the handler stores the status the heartbeat reports.

## Model

| member | source | states |
|---|---|---|
| TextLines.SplitIsDecomposition | packages/agent-daemon/src/openclaw-client.ts:56-59 | cutting the buffer at newlines loses no character and leaves no newline inside a part |
| TextLines.SplitInvertsJoin | packages/agent-daemon/src/openclaw-client.ts:56-59 | the cut is the only decomposition into newline-free parts: joining then splitting gives the parts back |
| TextLines.LinesOfConcat | packages/agent-daemon/src/openclaw-client.ts:54-59 | the lines of two reads are the lines of the first, then those of its unfinished line followed by the second |
| TextLines.UnterminatedLineIsIgnored | packages/agent-daemon/src/openclaw-client.ts:49-59 | what follows the last newline of a stream never becomes a line |
| TextLines.LinesOfNextPiece | packages/agent-daemon/src/openclaw-client.ts:54-59 | taking one more read into the buffer neither loses nor invents a line of the whole stream |
| TextLines.CarriageReturnIsIgnored | packages/agent-daemon/src/openclaw-client.ts:62-69 | a carriage return before the newline changes no payload |
| TextLines.TrimIsCore | packages/agent-daemon/src/openclaw-client.ts:62 | trimming takes off exactly the white space at both ends |
| TextLines.PayloadIff | packages/agent-daemon/src/openclaw-client.ts:65-69 | a line carries a payload if and only if, trimmed, it is the data field name followed by that payload |
| StreamModel.ContentMeaning | packages/agent-daemon/src/openclaw-client.ts:89-92 | the content of a stream is what its lines contribute, in order, whatever ids and tool calls they carry |
| StreamModel.SessionMeaning | packages/agent-daemon/src/openclaw-client.ts:84-86 | the session id is the first non-empty id among the lines, and none if no line has one |
| StreamModel.ContentOfLine | packages/agent-daemon/src/openclaw-client.ts:68-92 | a line whose payload is not the end marker and decodes to a delta with content contributes exactly that content |
| StreamModel.ContentComesFrom | packages/agent-daemon/src/openclaw-client.ts:61-95 | in every other case a line contributes nothing |
| StreamModel.IdOfLine | packages/agent-daemon/src/openclaw-client.ts:68-86 | a line whose payload decodes to a chunk with an id carries that id, unless it is empty |
| StreamModel.IdComesFrom | packages/agent-daemon/src/openclaw-client.ts:61-86 | in every other case a line carries no id |
| StreamModel.ToolCallsAreFed | packages/agent-daemon/src/openclaw-interceptor.ts:141-148 | the entries of a tool-call list are fed in order up to the first null entry; such an entry throws, and with interception off nothing is fed and nothing throws |
| StreamModel.UnreadablePayloads | packages/agent-daemon/src/openclaw-interceptor.ts:133-148 | a null payload always throws, a list that cannot be iterated only with interception on, malformed JSON and a missing delta never |
| StreamModel.EndMarkerFlushes | packages/agent-daemon/src/openclaw-interceptor.ts:127-131 | the end marker in the stream flushes |
| StreamModel.PlainLinesConcat | packages/agent-daemon/src/openclaw-client.ts:61-97 | reading lines in two lots is reading them in one |
| StreamModel.DrivenByConcat | packages/agent-daemon/src/openclaw-client.ts:327-357 | lines drive the interceptor lot by lot, up to and including the first line that throws |
| StreamModel.AnyPoisonousMeans | packages/agent-daemon/src/openclaw-interceptor.ts:133-148 | a stream is poisonous exactly if one of its lines is |
| OpenClawClient.ParseSseStream | packages/agent-daemon/src/openclaw-client.ts:40-102 | for every cutting of the stream into reads: the content is that of the newline-terminated lines of the whole stream in order, the id the first one; it throws exactly when a read fails |
| OpenClawClient.TakePiece | packages/agent-daemon/src/openclaw-client.ts:54-59 | a read yields the lines it completes and keeps exactly the unfinished rest |
| OpenClawClient.ParseLines | packages/agent-daemon/src/openclaw-client.ts:61-97 | the loop over the lines of one read appends the content of each line and keeps the first non-empty id; malformed payloads are passed over |
| OpenClawClient.Client.ParseSseStreamWithInterceptor | packages/agent-daemon/src/openclaw-client.ts:304-362 | throws if and only if a read fails or a complete line is poisonous; otherwise content and id are those of the complete lines, as for the plain parser; the interceptor has seen exactly the processed lines, and a flush only at the end of the stream |
| OpenClawClient.Client.ReadStream | packages/agent-daemon/src/openclaw-client.ts:313-358 | the read loop does not depend on how the stream is cut, even when it throws part of the way through |
| OpenClawClient.Client.ProcessLine | packages/agent-daemon/src/openclaw-client.ts:328-356 | one line adds its content and, if there is no id yet, its id; throws exactly on a poisonous line |
| OpenClawClient.Client.ExecuteTaskStreaming | packages/agent-daemon/src/openclaw-client.ts:222-294 | fails if and only if the request is not answered, the parser throws or the content is empty; otherwise the content is returned, the session remembered, and exactly the stream's tool calls have been emitted; after a failure, those completed before it |
| OpenClawClient.NullPayloadExample | packages/agent-daemon/src/openclaw-client.ts:337-338 | the stream of one JSON null payload, on which the two parsers differ |
| OpenClawInterceptor.Interceptor.ProcessChunk | packages/agent-daemon/src/openclaw-interceptor.ts:126-152 | which payloads throw, what content is returned, and what the accumulators have been fed by then |
| OpenClawInterceptor.Interceptor.ProcessToolCallDelta | packages/agent-daemon/src/openclaw-interceptor.ts:157-191 | the in-place update of the accumulator map is the fragment step of the reassembly machine |
| OpenClawInterceptor.Interceptor.FlushAll | packages/agent-daemon/src/openclaw-interceptor.ts:196-201 | emits the open calls in insertion order and forgets them |
| OpenClawInterceptor.Interceptor.Reset | packages/agent-daemon/src/openclaw-interceptor.ts:206-208 | forgets the open calls and emits nothing |
| ToolCalls.RunConservesCalls | packages/agent-daemon/src/openclaw-interceptor.ts:157-201 | along every run the events emitted and still owed are conserved |
| ToolCalls.Reassembly | packages/agent-daemon/src/openclaw-interceptor.ts:157-201 | any inputs closed by a flush emit one event per fragment with a non-empty id: that id, the last non-empty name of the fragment and its continuation or else "unknown", and the arguments of all of them put together; the continuation is the id-less fragments of the same index (absent is 0) up to the next opening there or a flush |
| ToolCalls.FlushOrder | packages/agent-daemon/src/openclaw-interceptor.ts:196-201 | a flush emits the last call of each index, in the order in which the indices were first used |
| ToolCalls.OneEventPerOpening | packages/agent-daemon/src/openclaw-interceptor.ts:160-185 | the number of events is the number of fragments that carry an id |
| ToolCalls.SecondFlushEmitsNothing | packages/agent-daemon/src/openclaw-interceptor.ts:196-201 | the flush at the end of a stream that already sent its end marker changes nothing |
| ToolCalls.CallsDecompose | packages/agent-daemon/src/openclaw-interceptor.ts:157-191 | the calls of a sequence are those of its per-index subsequences put together |
| ToolCalls.InterleavingIndependence | packages/agent-daemon/src/openclaw-interceptor.ts:157-201 | two sequences that agree index by index emit the same multiset of events, however the indices are interleaved |
| RegistryServer.Server.ClaimNext | apps/registry/src/routes/tasks.ts:40-108 | hands out an eligible queued task that no other eligible one precedes by priority then age, or none exactly when there is none |
| RegistryServer.Server.CreateTask | apps/registry/src/routes.ts:345-356 | a new task is queued and nothing else changes |
| RegistryServer.Server.CompleteTask | apps/registry/src/routes/tasks.ts:136-262 | finishes a locked task, frees its holder and creates the subtasks in order; any other task is turned down and nothing changes |
| RegistryServer.Server.CreateSubtasks | apps/registry/src/routes/tasks.ts:215-241 | the loop creates each subtask as a queued task of its own |
| RegistryServer.Server.CancelTask | apps/registry/src/routes.ts:406-463 | refuses terminal tasks, leaves cancelling ones, marks locked ones, cancels the others at once |
| RegistryServer.Server.RetryTask | apps/registry/src/routes.ts:376-401 | puts any task back in the queue with a clean record |
| RegistryServer.Server.RequeueTasks | apps/registry/src/routes/tasks.ts:348-394 | the row-by-row loop requeues exactly the tasks the agent holds |
| RegistryServer.Server.RegisterAgent | apps/registry/src/routes/agents.ts:19-124 | turns an unknown role or team down; otherwise creates the agent or brings it back as idle and just heard of |
| RegistryServer.Server.ReceiveTelemetry | apps/registry/src/routes/telemetry.ts:30-68 | the sender has been heard of, and its status stays what it was |
| RegistryServer.Server.UpdateAgent | apps/registry/src/routes.ts:253-269 | a status written by another service replaces the one of the row, whatever the heartbeat |
| RegistryServer.Server.ReceiveHeartbeat | apps/registry/src/routes/heartbeat.ts:23-111 | stores the reported status and answers with the current task exactly when it is being cancelled |
| RegistryServer.Server.DetectOfflineAgents | apps/registry/src/lib/offline-detection.ts:29-102 | the two ordered bulk updates amount to one detection cycle, and the two totals count the agents whose status turned, none of them twice |
| RegistryServer.Server.FixPhantomAgents | apps/registry/src/lib/reconciliation-job.ts:238-263 | marks exactly the given agents that exist as offline and counts them |
| RegistryServer.Server.CheckLockTimeouts | apps/registry/src/lib/lock-timeout.ts:45-133 | the loop over stale rows releases exactly the stale tasks with a dead holder; released and kept add up to the stale ones |
| RegistryServer.Server.ReleaseTask | apps/registry/src/lib/lock-timeout.ts:138-151 | queues one task, clears its lock fields and touches nothing else |
| RegistryServer.Server.CheckTaskTimeouts | apps/registry/src/lib/timeout-recovery.ts:57-205 | the loop over the rows found at the start fails exactly the stuck tasks and frees exactly their holders |
| RegistryServer.FirstExists | apps/registry/src/routes/tasks.ts:76-86 | a non-empty queue has a first task in the claim order |
| RequestProofs.CompleteOutcome | apps/registry/src/routes/tasks.ts:163-213 | success completes and failure fails a locked task; its error is stored unless empty, and exactly its holder goes idle |
| RequestProofs.RetryOutcome | apps/registry/src/routes.ts:376-401 | a retried task has no error, no times and no agent, and is claimable by exactly the roles its target lets |
| RequestProofs.CancelOutcome | apps/registry/src/routes.ts:418-463 | what a cancel does in each of the statuses, and that it touches no other row |
| RequestProofs.RequeueOutcome | apps/registry/src/routes/tasks.ts:348-394 | exactly the tasks the agent holds go back to the queue, without their error |
| RequestProofs.QueueOrder | apps/registry/src/routes/tasks.ts:76-86 | higher priority comes first, and of equal priorities the older task |
| RequestProofs.SignalNeedsCancel | apps/registry/src/routes/heartbeat.ts:76-94 | over every run, a heartbeat is told to stop a task only if that task was cancelled while locked |
| LeaseProofs.StepKeepsInv | apps/registry/src/routes.ts:376-463 | every event keeps that lock fields are set exactly on locked and cancelling tasks, a completion time exactly on terminal ones, and that no agent was last heard of in the future |
| LeaseProofs.RunKeepsInv | apps/registry/src/lib/timeout-recovery.ts:117-127 | the record and liveness invariant holds along every run |
| LeaseProofs.ReachableInv | apps/registry/src/routes/tasks.ts:87-93 | the invariant holds in every registry reachable from an empty one |
| LeaseProofs.DeadIff | apps/registry/src/lib/lock-timeout.ts:21 | an agent counts as dead after a run exactly if some event of the run marked it down and none since has restored its status, or it was dead before and never restored |
| LeaseProofs.ReleasedIff | apps/registry/src/lib/lock-timeout.ts:38-133 | over every run, a lock sweep releases a task exactly if it is stale and its holder is gone or stands marked down by some event of the run |
| LeaseProofs.LeaseSafety | apps/registry/src/lib/lock-timeout.ts:38-133 | when nothing has sidestepped the holder's heartbeat since its last heartbeat or registration, a sweep releases a task of a holder heard of within 90 seconds if and only if the task is stale and an undeploy has destroyed the holder |
| LeaseProofs.TelemetryExample | apps/registry/src/routes/telemetry.ts:55-58 | a run in which a holder loses its task in the instant its telemetry came in |
| LeaseProofs.PhantomExample | apps/registry/src/lib/reconciliation-job.ts:242-249 | a run in which a repair costs a holder its task in the instant of its heartbeat |
| LeaseProofs.BeatingHolderKeepsLease | apps/registry/src/lib/lock-timeout.ts:103-118 | while its holder keeps beating, by heartbeat or telemetry, and no one marks it down, no run of other events touches a locked task, however long it takes |
| LeaseProofs.DetectThenSweepIff | apps/registry/src/lib/lock-timeout.ts:45-151 | over every run, detection followed by a sweep requeues a stale task exactly when its holder is gone, destroyed, stands marked down, or has been silent for over 90 seconds and is past provisioning |
| LeaseProofs.DetectThenSweep | apps/registry/src/lib/lock-timeout.ts:45-151 | the same without reference to marks, when nothing has sidestepped the holder's heartbeat since its last heartbeat or registration |
| LeaseProofs.SecondSweepReleasesNothing | apps/registry/src/lib/lock-timeout.ts:45-133 | a second sweep at the same instant releases nothing more |
| LeaseProofs.LeaseIsNotTransferred | apps/registry/src/routes/tasks.ts:70-97 | no event hands a held task from one agent to another |
| LeaseProofs.TimeoutSweepIsThorough | apps/registry/src/lib/timeout-recovery.ts:75-127 | a timeout sweep fails a locked task exactly when its holder is gone or silent beyond the threshold |
| LeaseProofs.FreedAgentsAreDetected | apps/registry/src/lib/timeout-recovery.ts:129-139 | a silent agent that a timeout sweep sets to idle is unreachable again after one detection cycle |
| LeaseProofs.TerminalAbsorption | apps/registry/src/routes.ts:418-424 | a finished task keeps its whole record in every run without a retry, raw cancellation or deletion of it |
| LeaseProofs.CancellingEndsIff | apps/registry/src/routes/tasks.ts:412-414 | an event changes a cancelling task if and only if it is a retry, raw cancellation or deletion of it, or a requeue of its holder's tasks |
| LeaseProofs.CancellingIsStuck | apps/registry/src/routes/tasks.ts:412-414 | no completion report, sweep or detection cycle ever moves a cancelling task on, and each heartbeat is told to cancel it |
| LeaseProofs.CancellingExample | apps/registry/src/routes/tasks.ts:163-168 | a run in which the completion report of a cancelled task has no effect |
| LeaseProofs.CompletionNeedsLock | apps/registry/src/routes/tasks.ts:163-168 | a completion report takes effect if and only if the task is locked |
| LeaseProofs.CancelReachesHolder | apps/registry/src/routes/heartbeat.ts:76-94 | after a cancel, the heartbeat that names the task gets the signal, and what any other heartbeat is told stays as it was |
| LeaseProofs.DetectionOutcome | apps/registry/src/lib/offline-detection.ts:42-87 | what one cycle leaves each agent with, by how long it has been silent; nothing else of it changes |
| LeaseProofs.DetectionIsIdempotent | apps/registry/src/lib/offline-detection.ts:42-87 | a second cycle at the same instant changes nothing |
| LeaseProofs.MovesUpIff | apps/registry/src/lib/offline-detection.ts:20-23 | exactly which events, in which state, take an agent back from unreachable or offline, or remove it |
| LeaseProofs.StatusOnlyDescends | apps/registry/src/lib/offline-detection.ts:42-87 | along every run without such events an agent only moves from live to offline to unreachable |
| TimeProofs.HoldMeaning | apps/registry/src/routes/tasks.ts:87-97 | after every run a locked task is held by the agent of the last claim that took effect, and its lock time lies back by the ticks since |
| TimeProofs.SilenceMeaning | apps/registry/src/routes/heartbeat.ts:45-61 | after every run the heartbeat time of an agent lies back by the ticks since its last registration, accepted heartbeat or telemetry |
| TimeProofs.StaleByTime | apps/registry/src/lib/lock-timeout.ts:45-62 | the sweep looks at exactly the locked tasks claimed more than the limit of ticks ago |
| TimeProofs.ReleasedByTime | apps/registry/src/lib/lock-timeout.ts:45-133 | over every run from an empty registry, read off the events alone: a sweep releases a locked task if and only if the ticks since its claim exceed the limit and the claiming agent is gone or stands marked down; every other task keeps its record |
| TimeProofs.DetectedByTime | apps/registry/src/lib/offline-detection.ts:42-87 | over every run, by the ticks since an agent was heard of: unreachable past five minutes, offline past ninety seconds, with provisioning and destroyed agents left alone |
| TimeProofs.TimedOutByTime | apps/registry/src/lib/timeout-recovery.ts:75-127 | over every run, a timeout sweep fails a locked task if and only if the agent that claimed it is gone or has been silent for longer than the limit |
| TimeProofs.FreedByTimeout | apps/registry/src/lib/timeout-recovery.ts:129-139 | the agents freed by a timeout sweep are exactly those that held a task it fails |
| DeployModel.UpsertAppliedMeans | apps/registry/src/routes/deploys.ts:153-166 | after any number of updates by name, of which some are lost, each phase is the new one if its update was sent and applied and the old one otherwise |
| DeployModel.UpsertAllReplaces | apps/registry/src/routes/deploys.ts:153-166 | writing a list phase by phase over one with the same distinct names, with nothing lost, leaves exactly that list, in order |
| DeployModel.UpdateKeepsFaithful | apps/registry/src/routes/deploys.ts:153-166 | whether or not the update arrives, the copy keeps the phases in order, each as it is or was at some time |
| DeployModel.StartKeepsShape | apps/manager/src/lib/deploy-orchestrator.ts:765-788 | starting the phase the sequence has arrived at keeps the shape |
| DeployModel.CompleteKeepsShape | apps/manager/src/lib/deploy-orchestrator.ts:790-808 | completing the active phase moves the shape one phase on |
| DeployModel.FailKeepsShape | apps/manager/src/lib/deploy-orchestrator.ts:810-831 | failing the active phase keeps the completed prefix and the pending suffix |
| DeployModel.RetryKeepsShapeIff | apps/manager/src/lib/deploy-orchestrator.ts:690-711 | a retry keeps the phases before it, and restores the shape if and only if it starts no later than the failed phase |
| DeployModel.RetryTooLateExample | apps/manager/src/lib/deploy-orchestrator.ts:681-711 | a failed deploy whose retry from a later phase loses the shape |
| DeployModel.MidwayIsWritten | apps/manager/src/lib/deploy-orchestrator.ts:719-722 | what the row holds between two writes of a retry |
| DeployModel.RetryMidwayIff | apps/manager/src/lib/deploy-orchestrator.ts:719-722 | between two writes the row has the shape exactly when no reset phase has been written, or all up to the failed one have; a retry from the failed phase never loses it |
| DeployModel.OneLoudReport | apps/manager/src/lib/deploy-orchestrator.ts:846-867 | of a whole report only the one running or failed bootstrap phase has an effect |
| DeployModel.RunningIsFollowed | apps/manager/src/lib/deploy-orchestrator.ts:850-862 | the report that a bootstrap phase runs leaves its image active, with the shape kept at every intermediate list |
| DeployModel.FailureIsFollowed | apps/manager/src/lib/deploy-orchestrator.ts:864-866 | the report that a bootstrap phase failed fails its image |
| DeployModel.ProgressIsQuiet | apps/manager/src/lib/deploy-orchestrator.ts:846-867 | a report with nothing running or failed changes nothing |
| DeployModel.RunningStartsItsPhase | apps/manager/src/lib/deploy-orchestrator.ts:850-862 | when no deploy phase is active, a running bootstrap phase starts its image |
| DeployModel.StartOfDeploy | apps/manager/src/lib/deploy-orchestrator.ts:285-290 | a deploy starts in its first phase, with no other begun |
| DeployModel.SimulationMeaning | apps/manager/src/lib/deploy-orchestrator.ts:833-868 | by name: installing is the one active deploy phase while the machine boots or is connected to, configuring during the five configuration steps, registering while the registration is awaited; and a completed deploy phase has all its bootstrap phases completed or skipped |
| DeployOrchestrator.DeployRow.Update | apps/registry/src/routes/deploys.ts:112-197 | the update request: status, error, instance, agent and phase by name, each only if given; terminal statuses set the completion time; which agent is set to idle or error |
| DeployOrchestrator.Orchestrator.StartPhase | apps/manager/src/lib/deploy-orchestrator.ts:765-788 | starts a phase and keeps the registry's list equal to the one in memory if no update is lost, and faithful to its past if one is |
| DeployOrchestrator.Orchestrator.CompletePhase | apps/manager/src/lib/deploy-orchestrator.ts:790-808 | completes a phase and keeps the registry's list equal to the one in memory if no update is lost, and faithful to its past if one is |
| DeployOrchestrator.Orchestrator.FailPhase | apps/manager/src/lib/deploy-orchestrator.ts:810-831 | fails a phase, records the error and keeps the registry's list equal to the one in memory if no update is lost, and faithful to its past if one is |
| DeployOrchestrator.Orchestrator.UpdateBootstrapPhases | apps/manager/src/lib/deploy-orchestrator.ts:833-868 | goes through exactly the phase lists that the report leads through |
| DeployOrchestrator.Orchestrator.RunDeploySequence | apps/manager/src/lib/deploy-orchestrator.ts:313-536 | whichever call throws and whichever update is lost, every list on the way has the shape and every report is simulated; the deploy fails in the phase to which the first failing call belongs, or after the last phase, and what that call threw is the error of that phase, of the deploy and, if nothing is lost, of the row |
| DeployOrchestrator.EndsByName | apps/manager/src/lib/deploy-orchestrator.ts:313-536 | by name: a failing call up to the record of the host fails provisioning; the look-up of the role, cloud-init, the disconnect or the connection installing; a configuration step configuring; the poll registering; the two last calls none |
| DeployOrchestrator.FirstFailureIff | apps/manager/src/lib/deploy-orchestrator.ts:327-499 | the call a deploy ends at is the first of the twenty, in the order they are made, that fails |
| DeployOrchestrator.BootFailureByCall | packages/bootstrapper/src/index.ts:217-342 | the bootstrap fails exactly when one of its calls does, in the phase of that call |
| DeployOrchestrator.Orchestrator.DeployAll | apps/manager/src/lib/deploy-orchestrator.ts:327-499 | the guarded part throws if and only if some call on its way fails; what it throws is that call's message, with the blamed phase for a call of the bootstrap, and the phase it belongs to is left active or failed |
| DeployOrchestrator.Orchestrator.GoLive | apps/manager/src/lib/deploy-orchestrator.ts:486-499 | the last phase is completed first, so what fails afterwards fails with all phases completed |
| DeployOrchestrator.Orchestrator.RetryPhase | apps/manager/src/lib/deploy-orchestrator.ts:667-734 | which deploys are refused and why; what memory and registry hold when the retry goes through, when its n-th write throws, and when some are lost; the registry's error and completion time stay as they were |
| DeployOrchestrator.Orchestrator.WritePhases | apps/manager/src/lib/deploy-orchestrator.ts:719-722 | the upsert loop, up to the first write that throws |
| DeployOrchestrator.BrokenDeployIsRetryableIff | apps/manager/src/lib/deploy-orchestrator.ts:681-698 | a broken deploy has a phase to retry if and only if the call it ended at was not one of the two last ones; the retry keeps the completed phases and takes up the failed one |
| DeployOrchestrator.ReadyReportExample | apps/manager/src/lib/deploy-orchestrator.ts:493-499 | the failing call that leaves a failed deploy with every phase completed |
| DeployOrchestrator.Bootstrapper.Begin | packages/bootstrapper/src/index.ts:143-149 | starting bootstrap phase k takes the deploy to its image |
| DeployOrchestrator.Bootstrapper.Finish | packages/bootstrapper/src/index.ts:151-157 | finishing or skipping a phase is reported without disturbing the deploy |
| DeployOrchestrator.Bootstrapper.ReportFailure | packages/bootstrapper/src/index.ts:159-166 | a failed phase fails its image |
| DeployOrchestrator.Bootstrapper.Configure | packages/bootstrapper/src/phases/configure.ts:520-594 | the five configuration steps run in order up to the first that throws |
| DeployOrchestrator.Bootstrapper.RunPhases | packages/bootstrapper/src/index.ts:217-342 | where the bootstrap and the deploy stand when the first call throws, or that all is done |
| DeployOrchestrator.Bootstrapper.Bootstrap | packages/bootstrapper/src/index.ts:202-385 | succeeds if and only if no call on its way fails; otherwise the result carries the first failure's message and the phase it happened in, or none between two phases, and the bootstrap's list shows that phase failed with the message |
| ReporterModel.StepKeepsInv | packages/agent-daemon/src/progress-reporter.ts:130-237 | each stretch between awaits keeps the books of the task balanced |
| ReporterModel.Conservation | packages/agent-daemon/src/progress-reporter.ts:130-237 | at every await accepted events are those sent, failed, in flight and pending; the finished ones are a prefix of the accepted ones; at most one flush is active |
| ReporterModel.FreshStartIff | packages/agent-daemon/src/progress-reporter.ts:91-98 | a new task's books balance if and only if no flush is running when it starts |
| ReporterModel.StrandedIff | packages/agent-daemon/src/progress-reporter.ts:142-165 | a step leaves pending events without a timer if and only if it asks for a flush while one is running |
| ReporterModel.StrandedEventsStay | packages/agent-daemon/src/progress-reporter.ts:163-165 | stranded events stay where they are until another event or the end of the task |
| ReporterModel.StrandedExample | packages/agent-daemon/src/progress-reporter.ts:142-165 | two events in quick succession, of which the second is stranded |
| ReporterModel.StopLosesNothingIff | packages/agent-daemon/src/progress-reporter.ts:103-124 | a stop loses no event if and only if no flush is running or nothing is queued behind it |
| ReporterModel.StopLosesExample | packages/agent-daemon/src/progress-reporter.ts:103-124 | a stop that loses a queued event |
| ReporterModel.SpacedIff | packages/agent-daemon/src/progress-reporter.ts:142-154 | a step puts the debounce window out of order if and only if it is a stop within the window, a start after a flush, or an event handled before a timer already due |
| ReporterModel.StartsEarlyIff | packages/agent-daemon/src/progress-reporter.ts:109-112 | with the window in order, exactly a stop starts a flush less than the debounce interval after the last |
| ReporterModel.MinimumInterval | packages/agent-daemon/src/progress-reporter.ts:142-154 | along every run that keeps the window in order no two flushes start closer than the debounce interval |
| ReporterModel.StopTooSoonExample | packages/agent-daemon/src/progress-reporter.ts:103-112 | a stop that flushes two milliseconds after the last flush |
| ReporterModel.RestartTooSoonExample | packages/agent-daemon/src/progress-reporter.ts:91-98 | a new task whose first event is flushed one millisecond after the last flush |
| ReporterModel.LateTimerExample | packages/agent-daemon/src/progress-reporter.ts:151-154 | a late timer that flushes two milliseconds after the last flush |
| ReportProofs.ReportIsRetried | packages/agent-daemon/src/progress-reporter.ts:190-234 | over every run within a task, from the moment a report comes to the front until it is sent or has failed once more than there are retries, it stays at the front and nothing is counted; the sleep after its k-th failure is the base delay doubled k - 1 times, within the maximum |
| ReportProofs.ReportIsFinished | packages/agent-daemon/src/progress-reporter.ts:190-217 | the first success counts exactly that report as sent, and the failure after the last retry counts it as failed |
| ReportProofs.GivenUpIff | packages/agent-daemon/src/progress-reporter.ts:190-217 | a report is given up exactly when one attempt more than the retries has failed |
| ReportProofs.AcceptedInOrder | packages/agent-daemon/src/progress-reporter.ts:130-140 | within a task the events that arrive are accepted, all of them and in order |
| ReportProofs.ArrivalOutcome | packages/agent-daemon/src/progress-reporter.ts:130-158 | an event outside the window goes into a flush with the whole queue unless one is running; one inside the window waits for a timer set to its end |
| ReportProofs.FinishOutcome | packages/agent-daemon/src/progress-reporter.ts:163-180 | a finished report makes way for the next; the last one ends the flush and opens the window |
| ProgressReporter.ProgressReporter.StartTask | packages/agent-daemon/src/progress-reporter.ts:91-98 | resets the counters and the queue, and not the running flush |
| ProgressReporter.ProgressReporter.HandleToolCall | packages/agent-daemon/src/progress-reporter.ts:130-158 | queues the event, then flushes at once outside the debounce window or sets the timer inside it |
| ProgressReporter.ProgressReporter.FlushPending | packages/agent-daemon/src/progress-reporter.ts:163-170 | drains the whole queue, or does nothing while a flush is running |
| ProgressReporter.ProgressReporter.AttemptSettles | packages/agent-daemon/src/progress-reporter.ts:186-237 | an attempt ends a report when it succeeds or was the last one, and otherwise sleeps the doubled and capped delay |
| ProgressReporter.ProgressReporter.StopTask | packages/agent-daemon/src/progress-reporter.ts:103-113 | clears the timer and flushes what is pending |
| ProgressReporter.ProgressReporter.DebounceTimerFires | packages/agent-daemon/src/progress-reporter.ts:151-154 | the timer is spent and a flush asked for |
| ProgressReporter.ProgressReporter.DelayElapses | packages/agent-daemon/src/progress-reporter.ts:190-234 | after the delay the same report is sent once more |
| ProgressReporter.ProgressReporter.StopTaskEnds | packages/agent-daemon/src/progress-reporter.ts:115-124 | the task is forgotten together with whatever is still queued |
| Backoff.CapOnce | packages/agent-daemon/src/p2p-client.ts:269 | capping after each step is the same as capping once at the end |
| Backoff.ClosedForm | packages/agent-daemon/src/p2p-client.ts:263-269 | the delay before retry k + 1 is the minimum of the maximum and the initial delay times the multiplier to the power k, also for multipliers below 1 |
| Backoff.ClosedFormIff | packages/agent-daemon/src/p2p-client.ts:263-269 | the closed form holds for all retries if and only if the initial delay is within the maximum |
| Backoff.FirstSleepExample | packages/agent-daemon/src/p2p-client.ts:263-269 | a first sleep longer than the maximum |
| Backoff.SchedulesAgree | packages/agent-daemon/src/progress-reporter.ts:221-224 | with multiplier 2 the running update equals the reporter's direct formula |
| Backoff.TotalIsBounded | packages/agent-daemon/src/p2p-client.ts:265-270 | n retries sleep at most n times the maximum in total |
| Backoff.TotalIsReached | packages/agent-daemon/src/p2p-client.ts:265-270 | that bound is met by every schedule that starts at the maximum and does not shrink |
| Backoff.P2PClient.SendWithRetry | packages/agent-daemon/src/p2p-client.ts:251-322 | stops at the first answer, sleeps exactly the schedule's delays before it, and forgets the endpoint only when every attempt went unanswered |
| DeepMerge.DeepMerge | packages/bootstrapper/src/role-loader.ts:38-63 | the update loop computes the key-by-key merge, for any order of the entries |
| DeepMerge.LookupMerged | packages/bootstrapper/src/role-loader.ts:38-63 | what a merge holds at every path of keys, from what the two sides hold there |
| DeepMerge.HeldByBoth | packages/bootstrapper/src/role-loader.ts:44-60 | at a path where both sides hold a value the merge holds that of the override, or, for two objects, an object with the keys of both |
| DeepMerge.EmptyIsIdentity | packages/bootstrapper/src/role-loader.ts:38-63 | the empty object is a left and right identity |
| DeepMerge.OverrideIsAbsorbed | packages/bootstrapper/src/role-loader.ts:38-63 | merging the same override in twice equals merging it in once |
| DeepMerge.MergedIsOverrideIff | packages/bootstrapper/src/role-loader.ts:38-63 | the base adds nothing if and only if the override covers all its keys |
| DeepMerge.AssociativeIff | packages/bootstrapper/src/role-loader.ts:44-60 | merging three values is associative if and only if, wherever the middle one stands between two objects, the last covers the first |
| DeepMerge.AssociativeWhenNeverBlocked | packages/bootstrapper/src/role-loader.ts:44-60 | in particular when the middle value never holds a non-object between two objects |
| DeepMerge.NotAssociativeExample | packages/bootstrapper/src/role-loader.ts:44-60 | a triple on which the two groupings differ |
| CostReport.CapNeverCuts | packages/provisioner/src/cost.ts:157-160 | under a consistent calendar the days running are exactly the time the instance was up this month |
| CostReport.SumsAreWholeCents | packages/provisioner/src/cost.ts:218-234 | with whole-cent prices both totals are whole cents, so rounding the accumulated sum changes nothing |
| CostReport.ErrorIsBounded | packages/provisioner/src/cost.ts:216-219 | rounding each instance leaves the sum within half a cent per instance of the exact one |
| CostReport.ExactIsBelowFraction | packages/provisioner/src/cost.ts:213-219 | the exact accumulated share is at most the elapsed fraction of the monthly total |
| CostReport.AccumulatedIsBounded | packages/provisioner/src/cost.ts:188-235 | accumulated cost is at most the monthly total and within half a cent per instance of the exact prorated sum |
| CostReport.ProjectedIsBounded | packages/provisioner/src/cost.ts:194-241 | projected cost is within half a cent of the accumulated one scaled up to the month, is at least the accumulated one, and exceeds the monthly one by at most half a cent plus half a cent per instance scaled by days in month over current day |
| CostProofs.ReportMeaning | packages/provisioner/src/cost.ts:188-250 | the monthly amount is the sum of the prices, the accumulated one is within half a cent per instance of the sum of the shares by milliseconds, and the projected one is the accumulated one times days in month over current day in nearest cents |
| CostProofs.ItemMeaning | packages/provisioner/src/cost.ts:207-232 | each item has the price of its instance, its uptime this month in nearest tenths of days, and its share of the price in nearest cents |
| CostProofs.MonthlyIsTotal | packages/provisioner/src/cost.ts:237 | the monthly amount is the sum of the prices |
| CostProofs.ExactIsTotal | packages/provisioner/src/cost.ts:213-219 | the exact sum is price times milliseconds up over milliseconds in the month, instance by instance |
| CostProofs.WholeCentsIff | packages/provisioner/src/cost.ts:219 | an amount that rounding leaves alone is a whole number of cents |

## Left out

- Conservation: runs in which a task is started during a flush, or stopped. `FreshStartIff` and `StopLosesNothingIff` say exactly what is kept and lost there.
- ReleasedIff: a sweep whose reads and writes interleave with other requests. Each request and each sweep is one atomic step, so claims that race for a row, and rows skipped because another claim has them locked, do not show.
- CompleteTask: the stored output, artifacts and token counts, which no modelled step reads, and which agent posts the report, which the handler does not look at.
- CheckTaskTimeouts: rows whose update fails while the others succeed; they stay as they are and are not counted. Other database errors are left out too, among them the refusal to delete an agent that a task still names.
- Update: a completion time sent with the request; the row is given the time of the update.
- RunDeploySequence: an undeploy while the deploy is running, updates to the registry row that overtake each other, and listeners of deploy events that throw. One clock reading is used per run.
- RetryPhase: a change of the row by someone else between two of its writes.
- Bootstrap: the connection retry loops inside one ssh connection, which count as one call that succeeds or throws.
- AttemptSettles: a negative number of retries, for which the source sends nothing and counts nothing.
- ExecuteTaskStreaming: the wording of the error, and the callbacks that log progress.
- Writes through the raw task route, which accepts any body, except the daemon's write of the status cancelled. Among those left out are the manager's assignment of a new demand (`apps/manager/src/routes.ts:423`), which locks a task without a holder so that no sweep ever finds it, and the agent runtime's report of a result (`packages/agent-runtime/src/index.ts:96`), which finishes a task without clearing its lock. Both break the record invariant.
- Fields other than status and current task written through the raw agent route, and agents and tasks inserted by the seed script; every agent in the model has registered.
- The fields of tasks, agents and deploys that no modelled step reads.
- How the reconciliation finds phantoms; the repair is given the agents to mark.
- Argument summaries and times of tool-call events, and the wording of log messages and of errors other than those a deploy stores.
- Ids and contents of a chunk that are not strings, and UTF-8 decoding: text is a sequence of characters.
- Key order in JSON objects and the property name `__proto__`.
- Floating-point error in costs and delays, and daylight-saving time: arithmetic is on exact reals and days have 24 hours.
- The estimate cache and the agent columns of the cost report.
- Discovery, broadcast and expiry of endpoints in the peer-to-peer client.
- Non-streaming execution, the dashboard, the command line and the cloud providers: mostly plumbing, or easier members than those above.
