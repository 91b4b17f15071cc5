# Oblak: a verified model

Oblak runs uploaded functions in microVMs. An archive passes a server, an analyzer, a build worker and an
execution worker, which share one database, three object buckets and message queues; inside the VM an agent
talks to its host over a line-based protocol. This project models those processes in Dafny and proves what
they guarantee together: over every interleaving, with duplicate messages, crashes, lost writes and
dead-letters, and for every text that passes through.

## How it is built

| Files | What they model |
|---|---|
| `InvocationStore`, `ExecutionProtocol`, `QueueHandler`, `ExecuteQueue`, `ExecutionService` | claim, run and settle one invocation: a state machine over a row, a bag of deliveries and any number of workers, and the worker's methods proved to take exactly the machine's steps |
| `FunctionStore`, `Pipeline`, `PipelineSafety`, `PipelineLifecycle`, `PipelineFinality`, `PipelineDuplicates`, `PipelineVerdicts`, `PrepareService`, `Analysis`, `Listener`, `Server` | an uploaded archive from quarantine to a READY function and its execute messages |
| `VmSession`, `Connect`, `Drives` | one VM: the race for the teardown, the order of a build's commit, dialling, and the drive files |
| `Json`, `AgentProto`, `TornFrames`, `Logs`, `LogFidelity`, `Agent`, `ExecutionOutcome` | frames, the agent's jobs and two pipes, the stored log and the server's parser, and what a told exit code becomes |
| `Strings`, `Strace`, `Behavior`, `BehaviorProperties`, `TraceLines` | the hand-written parser of the strace log |
| `Paths`, `Archive`, `ArchiveProperties` | the two walks over an archive |
| `EventBus`, `Outcomes` | the in-process bus; options and what can become of a database write |

A database write is `Applied`, `Rejected`, or `Unseen`: applied although its caller was told of an error. A run
is a sequence of steps; the theorems about runs hold for every legal one from the empty system, within the
conditions they name. What a process
cannot decide itself (a database, a VM, a scanner, a language model) is a value of the environment, and every
theorem is for all such values.

## Where the code differs from what one might expect

- A FAILURE verdict is recorded as VERIFIED (`internal/analyzer/message/listener.go:130-136`), where
  `docs/architecture.md:110` says FAILED. VERIFIED therefore does not mean SAFE
  (`PipelineVerdicts.VerifiedWithoutSafe`): with one analysis per function the archive of a row so recorded is safe
  exactly if the verdict was (`VerifiedIffSafe`). A build message, an archive in the functions bucket, a drive path
  and READY do mean SAFE (`PipelineSafety.OnlySafeGoesOn`).
- DONE and FAILED are not final when a delivery is duplicated: `FinalStatusUndoneIff` says exactly which step
  undoes them, and `DuplicateUndoesFinalStatus` gives runs in which it happens.
- An early FAILED is followed by SCANNING, as the quarantine worker publishes after writing it
  (`PipelineVerdicts.EarlyFailedIsScanned`): with one analysis per function it is left exactly when that analysis
  begins (`EarlyFailedLostIffBegun`). The first status write that fails ends the worker (`Server.QuarantineWorker`).
- The execute endpoint accepts payloads of up to 1 MiB, but marshals them once more as a text inside a message
  that the queue drops over 64 KiB. `Server.DroppedIff` says which payloads are dropped, `AcceptedButDropped`
  gives some from 32 kB on, and `DroppedStaysPending` that such an invocation stays PENDING.
- READY is not final: with one analysis per function it is lost exactly by a dead letter
  (`PipelineFinality.ReadyLostIffDeadLettered`). That happens after a READY write that was applied although
  reported as failed (`PipelineLifecycle.ReadyIsLost`), and with every write seen when a duplicated build message
  cannot be claimed (`PipelineDuplicates.DuplicateLosesReady`). A FAILED after the scan is left exactly by a worker
  still in its build (`FailedLostIffBuilding`, `PipelineDuplicates.BuildUndoesFailed`).
- The runner does not look at the exit code it has streamed: an execution that tells any exit code makes its
  invocation DONE, and only one that tells none goes back to PENDING (`ExecutionOutcome.ToldIsDone`). A payload
  that is no JSON is told as exit code 0 (`Agent.RunExec`).
- A build that writes its row has torn the VM down before it uploads the image, but not always after it has
  received Done(0) (`VmSession.CommitAfterTeardown`, `CommitOrderIff`): an upload confirmed after its context has
  ended may swap the two (`LateConfirmationSwaps`).
- On an error after the start the deferred calls remove the drive files first and end the VM's context behind that,
  so the files can go under a running VM. `VmSession.RemovedTooEarlyIff` says from which states that can happen.
- A child that goes on writing behind a line over the agent's scanner limit fills its pipe and blocks; the job then
  never ends, neither unmounts nor flushes, and tells nothing (`Agent.StartWithStream`, `Agent.UndrainedFrom`).
- A drive path is write-once with one analysis per function (`PipelineSafety.DriveIsWriteOnce`). From every
  reachable state with a late verdict and a build message of the same function it can be replaced
  (`PipelineDuplicates.LateVerdictRewritesDrive`), and there are such states with a READY function.
- One pipe line that agent and host let through but that is over the log scanner's limit once printed loses the
  whole log (`LogFidelity.ReadableIff`, `ExecutionOutcome.LongLineLosesLog`).
- The strace filter compares times of day, so a log that runs past midnight loses lines of the next day, and keeps
  lines of the day before if the handler starts after midnight (`BehaviorProperties.DroppedIffEarlier`).
- The strace parser reads a line behind its last "] ", so a line keeps its call exactly if there is no "] " in it
  (`TraceLines.BracketIff`). One in an argument hides the line (`BracketHides`, `HiddenWrite`), or has it read as
  another call that the argument spells out (`BracketForges`, `ForgedCall`, `ForgedKill`).
- Publications of the event bus may overlap, and then subscribers can see them in different orders
  (`EventBus.SwappedOrders`); `DisagreeIff` says up to when.
- The server accepts archives whose entries collide as file and directory; extraction fails on exactly those
  (`ArchiveProperties.AcceptedExtractsIff`, `AcceptedButClashing`).
- The extractor's destination check keeps entries below the base unless the base's own path ends in ".."
  (`ArchiveProperties.StaysBelowIff`); the analyzer's base is absolute.

## Model

| member | source | states |
|---|---|---|
| `ExecutionProtocol.MutualExclusion` | internal/vm/service/exec.go:23-54 | in every reachable state at most one delivery of an invocation is inside the runner, and then its row is not PENDING |
| `ExecutionProtocol.NoClaimAfterSuccess` | internal/vm/service/exec.go:23-54 | once the runner has returned nil no claim of that invocation ever wins again, along any continuation, even if the DONE write failed |
| `ExecutionProtocol.AtMostOneSuccess` | internal/vm/service/exec.go:23-54 | along any run of the system the runner returns nil for an invocation at most once |
| `ExecutionProtocol.ExclusiveStep` | internal/invocation/store.go:51-61 | every step keeps the invariant behind mutual exclusion: locked rows, a single claim, DONE rows with log path and end time |
| `ExecutionProtocol.ClosedStep` | internal/vm/service/exec.go:23-54 | a closed invocation stays closed under every step, and no step claims it or has its runner return nil |
| `ExecutionProtocol.FinalStatusUndoneIff` | internal/vm/queue/handler.go:109-119 | DONE is left exactly by a landing dead-letter write, FAILED exactly by a landing reset or finish of a worker still in its claim |
| `ExecutionProtocol.DuplicateUndoesFinalStatus` | internal/vm/queue/handler.go:109-119 | reachable states in which a reset turns FAILED into PENDING and a dead-letter turns DONE into FAILED |
| `ExecutionProtocol.SingleDeliveryStep` | internal/vm/service/exec.go:23-54 | without duplicates there is one delivery per invocation, which finds its row not DONE, and EXECUTING while it holds the claim |
| `ExecutionProtocol.FinalWithoutDuplicates` | internal/vm/service/exec.go:23-54 | in every run from the empty system without duplicated deliveries DONE and FAILED are never left, whatever crashes, writes, nacks and dead-letters do |
| `ExecutionProtocol.SettledIffSound` | internal/vm/queue/handler.go:56-79 | in a calm run an invocation whose delivery is over is DONE or FAILED exactly when its message was well-formed and in size, and PENDING otherwise |
| `ExecutionProtocol.SettlingStep` | internal/vm/queue/handler.go:109-119 | every calm step keeps the settling invariant, whichever of retry, nack and dead-letter follows an error |
| `ExecutionProtocol.DoneIffSucceeded` | internal/vm/service/exec.go:33-54 | such an invocation is DONE exactly when its runner has returned nil once |
| `ExecutionProtocol.WonStep` | internal/vm/service/exec.go:33-54 | a calm step makes an invocation won exactly by its runner returning nil, and never takes that away |
| `InvocationStore.Store.CreateInvocation` | internal/invocation/store.go:20-37 | the new table is the old one with a PENDING row, if the write lands |
| `InvocationStore.Store.UpdateInvocationStatus` | internal/invocation/store.go:39-49 | the new table, for an unconditional status write |
| `InvocationStore.Store.UpdateInvocationStatusIf` | internal/invocation/store.go:51-61 | compare-and-set: who is told it has won, and the new table |
| `InvocationStore.Store.UpdateInvocationStatusAndLogPathAndEndTime` | internal/invocation/store.go:63-73 | the new table, for the DONE write |
| `ExecutionService.Execute` | internal/vm/service/exec.go:23-54 | takes exactly the protocol's claim, run and finish or reset steps; a won claim ends in DONE with the invocation's own log and the end time, or in PENDING and an error, for every fate of the writes |
| `ExecutionService.Handle` | internal/vm/queue/handler.go:56-79 | acknowledges and changes nothing for a malformed, oversized or badly named message; otherwise the row and the error `Execute` leaves |
| `ExecutionService.PublishDeadLetters` | internal/vm/queue/handler.go:109-119 | exactly the rows that some message of at most 64 KiB names, whose own write lands, become FAILED; the error is the base publisher's |
| `ExecutionService.DeadLetteredIff` | internal/vm/queue/handler.go:109-119 | exactly the rows that some decodable message names with a write that lands become FAILED |
| `QueueHandler.ValidateObjectName` | internal/vm/queue/handler.go:134-150 | accepts exactly the names of 1 to 1024 bytes without NUL and without a ".." component |
| `QueueHandler.ClimbsIffSegment` | internal/vm/queue/handler.go:134-150 | the textual test for ".." is a test on the components between slashes |
| `FunctionStore.Store.CreateFunction` | internal/function/store.go:23-39 | the new table is the old one with a QUARANTINED row, if the write lands |
| `FunctionStore.Store.UpdateFunctionStatus` | internal/function/store.go:41-49 | the new table, for an unconditional status write |
| `FunctionStore.Store.UpdateFunctionStatusIf` | internal/function/store.go:51-61 | compare-and-set on a function's status |
| `FunctionStore.Store.UpdateFunctionStatusAndDrivePath` | internal/function/store.go:63-74 | status and drive path are written together |
| `PipelineSafety.OnlySafeGoesOn` | internal/analyzer/message/listener.go:86-120 | in every reachable state an archive in the functions bucket, a build message, a build under way, a drive path, READY and an execute message each imply a SAFE verdict on that archive |
| `PipelineSafety.VettedStep` | internal/analyzer/message/listener.go:86-120 | every step keeps the invariant that ties rows, messages and buckets to verdicts |
| `PipelineSafety.ReferentialIntegrity` | internal/vm/service/prepare.go:23-55 | READY implies a drive path; drive paths, build and execute messages name objects that exist |
| `PipelineSafety.BuildsAreExclusive` | internal/vm/service/prepare.go:23-55 | with one analysis per function, at most one worker builds a function at a time, however often build messages are duplicated |
| `PipelineSafety.DriveIsWriteOnce` | internal/vm/service/prepare.go:50-53 | with one analysis per function, a drive path once set is never changed along any continuation |
| `PipelineDuplicates.LateVerdictRewritesDrive` | internal/analyzer/message/listener.go:92-117 | without that: from every reachable state with a late verdict and a build message of one function a legal run replaces its drive path |
| `PipelineDuplicates.DuplicateAnalysisRewritesDrive` | internal/analyzer/message/listener.go:92-117 | there is such a reachable state in which the function is READY |
| `PipelineSafety.OnceStep` | internal/function/store.go:51-74 | every step keeps the invariant behind exclusive builds and write-once drives |
| `PipelineLifecycle.LifecycleIsPath` | internal/server/extractor/service.go:36-69 | without duplicates every function's status history is a path in the graph of permitted changes |
| `PipelineFinality.ReadyLostIffDeadLettered` | internal/vm/queue/handler.go:88-98 | with one analysis per function, and whatever is duplicated, crashes or goes unseen, READY is lost exactly if a dead-letter write lands, and then for FAILED and for good |
| `PipelineFinality.ReadyLeftIff` | internal/vm/queue/handler.go:88-98 | the same for one step |
| `PipelineFinality.DetectedIsFinal` | internal/analyzer/message/listener.go:130-136 | under the same condition DETECTED is never left |
| `PipelineFinality.FailedLostIffBuilding` | internal/vm/service/prepare.go:23-55 | under the same condition a FAILED after the scan lasts exactly as long as no worker in its build writes READY or VERIFIED |
| `PipelineFinality.GuardedStep` | internal/vm/service/prepare.go:23-55 | every step keeps the invariant behind these |
| `PipelineVerdicts.VerifiedIffSafe` | internal/analyzer/message/listener.go:92-136 | with one analysis per function, recording a verdict that is not MALICIOUS makes the row VERIFIED, and along every continuation the archive counts as safe exactly if that verdict was SAFE |
| `PipelineVerdicts.VerifiedWithoutSafe` | internal/analyzer/message/listener.go:130-136 | a reachable VERIFIED function whose archive was never called SAFE |
| `PipelineVerdicts.EarlyFailedLostIffBegun` | internal/server/extractor/service.go:36-69 | under the same condition a FAILED from before the scan lasts along a run exactly as long as no analysis of that function begins with a landing write |
| `PipelineVerdicts.EarlyFailedLeftIff` | internal/analyzer/message/listener.go:86-95 | the same for one step, which then leads to SCANNING |
| `PipelineVerdicts.EarlyFailedIsScanned` | internal/server/extractor/service.go:36-69 | a reachable FAILED function and the step that makes it SCANNING |
| `PipelineVerdicts.JudgingStep` | internal/analyzer/message/listener.go:86-120 | every step with one analysis keeps the invariant behind these |
| `PipelineDuplicates.DuplicateLosesReady` | internal/vm/queue/handler.go:88-98 | a reachable READY function that the dead letter of a duplicated build message makes FAILED, with every write seen |
| `PipelineDuplicates.BuildUndoesFailed` | internal/vm/service/prepare.go:50-53 | a reachable FAILED function that the original build makes READY |
| `PipelineLifecycle.FinalInEveryRun` | internal/vm/service/prepare.go:24-53 | in orderly runs, without duplicates and unseen READY writes, DETECTED, READY and a FAILED after scanning are never left |
| `PipelineLifecycle.StatusStep` | internal/analyzer/message/listener.go:92-117 | every orderly step leaves a status as it is or moves it along an edge |
| `PipelineLifecycle.FirstBuildDeliveryWins` | internal/vm/service/prepare.go:24-33 | the first delivery of a build message finds VERIFIED, so its claim wins |
| `PipelineLifecycle.UnseenCommitLosesReady` | internal/vm/service/prepare.go:50-53 | from every reachable state with a finished build an unseen READY write and a dead letter leave FAILED with the drive set |
| `PipelineLifecycle.ReadyIsLost` | internal/vm/service/prepare.go:50-53 | a reachable READY function that is lost so |
| `PipelineLifecycle.GetsToReady` | internal/vm/service/prepare.go:23-55 | READY with a drive is reachable, by an orderly run |
| `PrepareService.Prepare` | internal/vm/service/prepare.go:23-55 | takes exactly the pipeline's claim, build and commit, failure or restore steps; a won claim ends in READY with the new drive, in FAILED and an acknowledgement, or in VERIFIED and an error, for every fate of the writes |
| `PrepareService.Handle` | internal/vm/queue/handler.go:28-45 | acknowledges and changes nothing for an unusable message; otherwise the row and the error `Prepare` leaves on the message's function |
| `PrepareService.PublishDeadLetters` | internal/vm/queue/handler.go:88-98 | exactly the rows that some message of at most 64 KiB names, whose own write lands, become FAILED; the error is the base publisher's |
| `PrepareService.DeadLetteredIff` | internal/vm/queue/handler.go:88-98 | exactly the rows that some decodable message names with a write that lands become FAILED |
| `Analysis.AnalyzeFile` | internal/analyzer/orchestrator/analysis_orchestrator.go:45-149 | SAFE exactly when every check came out well, MALICIOUS, with or without an error, exactly when one found something, every FAILURE with an error, and nothing left on disk unless the process exits |
| `Listener.ObjectStore.Move` | internal/analyzer/orchestrator/filestore.go:49-74 | copy then remove: the two buckets afterwards, and the object is always in one of them |
| `Listener.Analyzer.ProcessMessage` | internal/analyzer/message/listener.go:86-120 | one message takes the pipeline's steps; a build message is published exactly if both status writes are seen, the verdict is SAFE, the archive is copied and removed and the publication lands; the two buckets and the row in each case |
| `Listener.Analyzer.UpdateFunctionStatus` | internal/analyzer/message/listener.go:130-136 | every verdict but MALICIOUS is recorded as VERIFIED, FAILURE included |
| `Server.QuarantineWorker` | internal/server/extractor/service.go:36-69 | exactly the events before the first failed status write are passed on, extracted or not, and each row holds EXTRACTED or FAILED as the last write that landed on it says |
| `Server.ExecuteLambda` | internal/server/handler/execute.go:25-58 | the call is the protocol's Create and, exactly when it publishes, its Publish; the queue reads the published message, if it fits, as that invocation with the function's archive, its drive and the payload |
| `Server.DroppedIff` | internal/server/vmexecutepublisher/publish.go:15-35 | an accepted request's message is not run exactly if the payload, escaped once more, exceeds what its names leave of 64 KiB, or a name is bad |
| `Server.AcceptedButDropped` | internal/server/handler/execute.go:60-73 | texts of quotes from 32 kB on are accepted, and their messages never run, whatever the names |
| `Server.DroppedStaysPending` | internal/vm/queue/handler.go:56-79 | in a calm run such an invocation is PENDING when its message is gone, and no other is |
| `ExecuteQueue.BodyRoundTrip` | internal/vm/service/model.go:10-15 | every text of an execute message is read back as it was written |
| `ExecuteQueue.BodyShown` | internal/vm/service/model.go:10-15 | the message letter by letter, under its four keys |
| `ExecuteQueue.BodyBytes` | internal/server/vmexecutepublisher/publish.go:37-43 | the size of an execute message from its four texts |
| `ExecuteQueue.DroppedIffTooLong` | internal/vm/queue/handler.go:125-132 | the queue decodes a published message, to what was put in, unless it is over 64 KiB |
| `VmSession.TeardownExactlyOnce` | internal/vm/vm/vm.go:164-172 | over every interleaving of runner, watcher and agent the teardown body runs at most once, and exactly once in every terminal state |
| `VmSession.CanAlwaysEnd` | internal/vm/vm/vm.go:216-230 | however far a session has come, it can end within 16 more steps |
| `VmSession.RemovedTooEarlyIff` | internal/vm/vm/exec.go:64-98 | from a reachable state the drive files can be removed while the VM has still to be torn down exactly if it has not been torn down and the runner is neither at its own Stop nor past its clean-up |
| `VmSession.CommitAfterTeardown` | internal/vm/vm/prepare.go:82-105 | whatever happens, a build that writes its row did so after unmount, sync and Done(0), and uploaded after the teardown; only teardown and receipt of Done(0) may change places |
| `VmSession.CommitOrderIff` | internal/vm/vm/prepare.go:82-105 | the order of such a build is exactly unmount, sync, Done(0) sent, Done(0) received, teardown, upload, row if and only if no terminal message is read after the teardown |
| `VmSession.LateConfirmationSwaps` | internal/vm/vm/logs.go:74-85 | there is a run that writes the row although the teardown came before the receipt, with an upload confirmed after its context had ended |
| `VmSession.ShowsStep` | internal/agent/build.go:60-103 | every step keeps the order of events so far, without any assumption |
| `VmSession.WatcherWinsAndBuildCommits` | internal/vm/vm/vm.go:164-172 | there is such a run in which the watcher does the teardown |
| `VmSession.OrderedStep` | internal/agent/build.go:60-103 | every step of host, watcher and agent keeps the order of the events so far |
| `Connect.Dialler.Connect` | internal/vm/vm/vm.go:179-213 | returns the first accepted connection unless closing an earlier one failed; it alone is open, and none is when all attempts are used up |
| `Drives.CreateBlankExt4` | internal/vm/vm/drive.go:198-227 | a new drive file and nothing else exactly when every step works; otherwise the directory is as it was |
| `Drives.MinioDrive` | internal/vm/vm/drive.go:40-71 | a new drive file on success; on failure one is left exactly when closing it failed |
| `Drives.EphemeralDrive` | internal/vm/vm/drive.go:107-126 | a new drive file exactly when every step works |
| `Drives.MinioUploadDrive` | internal/vm/vm/drive.go:73-105 | the same for the drive a build fills |
| `Drives.ArchiveDrive` | internal/vm/vm/drive.go:128-196 | a new drive file exactly when every step works, temporary files removed on every path |
| `Drives.MicroVM.Stop` | internal/vm/vm/vm.go:216-230 | the teardown body runs on the first call only |
| `Drives.MicroVM.CleanUpDrives` | internal/vm/vm/vm.go:233-243 | every drive with a file is cleaned up once, in order |
| `Drives.Execute` | internal/vm/vm/exec.go:31-98 | on every path each drive made is cleaned up exactly once and the directory ends as it began, apart from a leaked download; the machine boots with root, code, downloaded and blank drive in this order and is stopped before the clean-ups if the session goes well |
| `Drives.StartAndRun` | internal/vm/vm/exec.go:57-98 | the hand-over of clean-ups at the start of the machine drops and doubles none; boot, stop, clean-ups and the end of the context in order |
| `Drives.PrepareEnvironment` | internal/vm/vm/prepare.go:31-105 | the same for a build: directories as they began, each drive cleaned up once; the deps image is saved exactly after a clean exit, behind the machine's stop and before its file is cleaned up |
| `Drives.StartAndBuild` | internal/vm/vm/prepare.go:57-105 | boot, stop, saving the image, clean-ups and the end of the context happen in that order, each exactly when it is due |
| `Json.RoundTrip` | internal/agentproto/proto.go:70-88 | decoding an encoded message body gives the same fields, for every text |
| `Json.EscapeBytes` | internal/agentproto/proto.go:70-77 | escaping makes a text at most six times as long and never adds a line break |
| `Json.EscapeCharLength` | internal/agentproto/proto.go:70-77 | which characters the encoder escapes, in two characters or in six |
| `AgentProto.MarshalRoundTrip` | internal/agentproto/proto.go:21-27 | every message survives marshalling, Done(0) included |
| `AgentProto.Conn.Send` | internal/agentproto/proto.go:70-77 | appends exactly one frame, and errs exactly when the connection has not taken all that was written |
| `AgentProto.Conn.Receive` | internal/agentproto/proto.go:79-88 | takes exactly one line, with the scanner's limit and its error cases |
| `AgentProto.FrameReceived` | internal/agentproto/proto.go:70-88 | a frame in front of any stream is received exactly if it fits, and is an error otherwise |
| `AgentProto.SendReceive` | internal/agentproto/proto.go:70-88 | what is received is what was sent, up to the first frame over the limit |
| `AgentProto.AllReceived` | internal/agentproto/proto.go:11 | messages that fit arrive complete and in order |
| `TornFrames.TornIsMalformed` | internal/agentproto/proto.go:79-88 | no proper beginning of a frame is read as a message |
| `TornFrames.BrokenConnection` | internal/agentproto/proto.go:70-88 | of a connection that breaks anywhere the peer receives the first messages as they were sent, and then only errors |
| `AgentProto.ScannedLineFits` | internal/agent/stream.go:43-49 | a pipe line below the agent's scanner limit always makes a frame below the message limit |
| `Logs.Emitter.Pipe` | internal/agent/stream.go:41-53 | one pipe becomes one frame per line, in order, up to the first line over the limit |
| `Logs.Emitter.Emit` | internal/agent/stream.go:20-26 | one whole frame per call |
| `Logs.Stream` | internal/vm/vm/logs.go:29-88 | the log is stored and the terminal message returned exactly when that message is received before the connection is closed and the upload succeeds; the log is the messages printed up to it |
| `Logs.GetLogsByInvocationId` | internal/server/invocations/logs.go:34-93 | the loop returns what the parser's specification says of every line, or an error exactly on a line over the limit |
| `LogFidelity.ParsesLine` | internal/server/invocations/logs.go:46-83 | what the parser makes of any printed pipe line: the exact loss |
| `LogFidelity.RecoveredIffClean` | internal/server/invocations/logs.go:56-82 | a pipe line comes back unchanged on its stream exactly if its text is clean |
| `LogFidelity.ReadableIff` | internal/server/invocations/logs.go:44-91 | a stored log is readable exactly when no printed line is over the scanner's limit |
| `LogFidelity.OtherLineShown` | internal/server/invocations/logs.go:46-83 | a line of another shape is shown on stdout, trimmed; empty ones and a lone brace are not |
| `LogFidelity.ParsesDone` | internal/server/invocations/logs.go:50-60 | the terminal line is shown as the end of the execution, whatever code it tells |
| `ExecutionOutcome.LongLineLosesLog` | internal/agent/stream.go:41-49 | every pipe line from 33 bytes below the limit passes agent and host, is stored, and makes the log unreadable |
| `ExecutionOutcome.SuchALine` | internal/server/invocations/logs.go:44-91 | lines of 65503 to 65535 letters are such |
| `ExecutionOutcome.StreamedForEveryCode` | internal/vm/vm/exec.go:88-96 | whatever a job has put out, its terminal message of any exit code is streamed and its log stored |
| `ExecutionOutcome.StoredLogShowsCode` | internal/agentproto/proto.go:29-34 | the stored log ends in a line that shows the very code told, in digits that read back as it |
| `ExecutionOutcome.SilenceIsAnError` | internal/vm/vm/logs.go:50-72 | without a terminal message nothing is stored |
| `ExecutionOutcome.ToldIsDone` | internal/vm/service/exec.go:33-54 | a claimed invocation whose job tells any exit code becomes DONE, and one whose job tells none PENDING |
| `ExecutionOutcome.SessionSucceedsForEveryCode` | internal/vm/vm/exec.go:88-96 | for every exit code there is a session that receives it and succeeds |
| `LogFidelity.OneLogLinePerMessage` | internal/vm/vm/logs.go:53-71 | through frames, host, log object and parser every agent message becomes exactly one log line, in order |
| `LogFidelity.EndToEndFidelity` | internal/agent/stream.go:28-57 | for every interleaving of the two pipes the server shows, on each stream, exactly that pipe's lines in order, if their texts are clean |
| `LogFidelity.DoneFits` | internal/agentproto/proto.go:51-53 | the terminal message of every exit code fits a frame |
| `Agent.StartWithStream` | internal/agent/stream.go:28-57 | what the two pipes deliver is sent in the order the mutex lets it through; the call hangs exactly if more stays in an unread pipe than it holds |
| `Agent.UndrainedFrom` | internal/agent/stream.go:41-55 | lines below the scanner's limit leave nothing in a pipe, and behind the first one that is not all but the scanner's bytes of it stays there |
| `Agent.DeliveredFrom` | internal/agent/stream.go:41-50 | the lines below the scanner's limit are delivered, up to the first one that is not |
| `Agent.CleanUp` | internal/agent/build.go:99-103 | kill, unmounting tried on every target, flush; only stuck targets stay mounted |
| `Agent.Finish` | internal/agent/build.go:48-63 | which note is sent and which exit code told for which end of the child, and that clean-up precedes it |
| `Agent.Skip` | internal/agent/build.go:22-29 | a job with nothing to run unmounts, flushes and tells 0 |
| `Agent.RunBuild` | internal/agent/build.go:14-64 | exactly which notes, child lines and exit code are sent for every course of the job, with kill, unmounting and flush before the code; when the job hangs, and that it then does none of these |
| `Agent.RunExec` | internal/agent/exec.go:16-64 | the same for an execution; a payload that is no JSON is told as Done(0) |
| `Agent.ListenForCommands` | internal/agent/comm.go:11-55 | errors of listening, accepting and receiving; one job for a build or exec command, with its transcript, exit code and error; none for any other message |
| `Agent.JobShownFaithfully` | internal/agent/stream.go:28-57 | what a finished job's child wrote is what the server shows, stream by stream, if its lines are clean and short enough |
| `Strace.IndexByte` | internal/analyzer/dast/helpers.go:362-369 | position of the first occurrence, or -1 |
| `Strace.IndexStr` | internal/analyzer/dast/helpers.go:371-381 | position of the first occurrence, or -1 |
| `Strace.TrimSpace` | internal/analyzer/dast/helpers.go:387-396 | the part between the outermost characters that are neither space nor tab |
| `Strace.SplitLines` | internal/analyzer/dast/helpers.go:347-360 | the lines, with no empty one behind a final break |
| `Strace.ExtractTimestamp` | internal/analyzer/dast/helpers.go:233-247 | the word behind the first space that a time-shaped text follows |
| `Strace.StampIs` | internal/analyzer/dast/helpers.go:233-247 | the first time-shaped text behind a space counts, and without one there is none |
| `Strace.ExtractBody` | internal/analyzer/dast/helpers.go:250-272 | what follows the first " X " behind the last "] " |
| `Strace.ExtractPath` | internal/analyzer/dast/helpers.go:276-288 | from the first slash to the next terminator |
| `Strace.ExtractFlags` | internal/analyzer/dast/helpers.go:291-303 | the flag names that occur, joined with bars, in the list's order |
| `Strace.FoundInOrder` | internal/analyzer/dast/helpers.go:291-303 | markers are found one by one, each exactly if it occurs, in the list's order |
| `Strace.ExtractNetDetail` | internal/analyzer/dast/helpers.go:307-332 | address and port parts, with every fall-back |
| `Strace.ExtractExecArgs` | internal/analyzer/dast/helpers.go:335-345 | the first bracketed part |
| `Behavior.IsNoisyFSPath` | internal/analyzer/dast/helpers.go:197-229 | exactly the paths of interpreter start-up |
| `Behavior.FindHandlerStartTime` | internal/analyzer/dast/helpers.go:93-104 | the stamp of the first exit line that starts the handler |
| `Behavior.ParseBehaviorReport` | internal/analyzer/dast/helpers.go:110-193 | the loop equals a filter and map over the lines, filed by kind |
| `Behavior.FileOne` | internal/analyzer/dast/helpers.go:160-189 | every event is filed behind those of its kind and leaves the other two lists as they are |
| `BehaviorProperties.ParseConcat` | internal/analyzer/dast/helpers.go:131-193 | for a fixed start, parsing two logs joined by a line break is the component-wise concatenation of parsing both |
| `BehaviorProperties.LaterLogOnlyAdds` | internal/analyzer/dast/helpers.go:93-193 | once the handler has started, a longer log only adds events at the end |
| `BehaviorProperties.LinesConcat` | internal/analyzer/dast/helpers.go:347-360 | the lines of two joined texts, with the empty line a break of its own makes |
| `BehaviorProperties.LogOrder` | internal/analyzer/dast/helpers.go:131-193 | events come in log order, at most one per line, and no line that has one is passed over |
| `BehaviorProperties.NoEventBeforeStart` | internal/analyzer/dast/helpers.go:135-138 | no event is stamped before the handler's start |
| `BehaviorProperties.LexicographicIsChronological` | internal/analyzer/dast/helpers.go:106-109 | on well-formed stamps the string order is the order of microseconds since midnight |
| `BehaviorProperties.DroppedIffEarlier` | internal/analyzer/dast/helpers.go:135-138 | on one day the filter drops exactly the lines from before the start; about a line of a later day it is right exactly if that is not earlier in the day, and about one of an earlier day exactly if that is |
| `TraceLines.LineRecovered` | internal/analyzer/dast/helpers.go:231-272 | stamp, call, arguments and result of a line printed from clean parts are recovered exactly |
| `TraceLines.NoBracketNoBody` | internal/analyzer/dast/helpers.go:250-272 | a line without a "] " has no call |
| `TraceLines.ReturnRecovered` | internal/analyzer/dast/helpers.go:149-158 | the result is recovered with and without a timing note behind it |
| `TraceLines.MeaningRecovered` | internal/analyzer/dast/helpers.go:131-193 | a clean line yields exactly the event its parts mean |
| `TraceLines.FileCallReported` | internal/analyzer/dast/helpers.go:114-172 | the eleven file calls are reported with the printed path, unless it is noise, and with exactly the printed markers as flags |
| `TraceLines.PathlessCallIgnored` | internal/analyzer/dast/helpers.go:160-165 | one without a path is not reported |
| `TraceLines.NetCallReported` | internal/analyzer/dast/helpers.go:119-181 | the nine network calls are reported with the printed address and port |
| `TraceLines.ProcessCallReported` | internal/analyzer/dast/helpers.go:124-189 | the five process calls are reported with the printed argument list |
| `TraceLines.OtherCallIgnored` | internal/analyzer/dast/helpers.go:160-190 | any other call is not reported |
| `TraceLines.AddressRecovered` | internal/analyzer/dast/helpers.go:307-332 | address and port are recovered as addr:port |
| `TraceLines.AddrWithoutComma` | internal/analyzer/dast/helpers.go:307-320 | an address without a comma ends at a brace, or else nowhere |
| `TraceLines.PortWithoutBrace` | internal/analyzer/dast/helpers.go:321-332 | a port without a closing brace is not read |
| `TraceLines.NoAddress` | internal/analyzer/dast/helpers.go:307-332 | without an address there is no detail, and without a port only the address |
| `TraceLines.PathRecovered` | internal/analyzer/dast/helpers.go:276-288 | a path printed behind text without slashes is recovered |
| `TraceLines.ArgvRecovered` | internal/analyzer/dast/helpers.go:335-345 | the bracketed argument list is recovered |
| `TraceLines.NoArgv` | internal/analyzer/dast/helpers.go:335-345 | without both brackets there is none |
| `TraceLines.FlagsRecovered` | internal/analyzer/dast/helpers.go:291-303 | the flags field split at its bars is exactly the known names that occur |
| `TraceLines.LogRecovered` | internal/analyzer/dast/helpers.go:110-193 | for a given start, a log printed from clean lines is read back as exactly what they mean |
| `TraceLines.StartRecovered` | internal/analyzer/dast/helpers.go:93-104 | the start found in such a log is the stamp of its first line that starts the handler |
| `TraceLines.ReportRecovered` | internal/analyzer/dast/helpers.go:110-193 | the report of such a log is what its lines mean from that start on |
| `TraceLines.BracketIff` | internal/analyzer/dast/helpers.go:250-272 | a line whose process name is harmless is read as its own call exactly if there is no "] " in that call |
| `TraceLines.BracketHides` | internal/analyzer/dast/helpers.go:250-272 | if no " X " follows the last "] " the line has no event |
| `TraceLines.BracketForges` | internal/analyzer/dast/helpers.go:250-272 | otherwise the line is read as what follows the first " X " behind that "] " |
| `TraceLines.ForgedCall` | internal/analyzer/dast/helpers.go:131-193 | an argument that holds "] " and the text of another call makes the line mean what a line of that call means |
| `TraceLines.HiddenWrite` | internal/analyzer/dast/helpers.go:250-272 | a printed write that leaves no event |
| `TraceLines.ForgedKill` | internal/analyzer/dast/helpers.go:250-272 | a printed write that is reported as a kill |
| `Paths.CleanIsIdempotent` | internal/analyzer/orchestrator/unzipper.go:58-59 | cleaning a clean path changes nothing |
| `Paths.CleanByComponent` | internal/analyzer/orchestrator/unzipper.go:58-59 | what each further component does to a cleaned path, from the empty and the root path on |
| `Paths.PrefixIsContainment` | internal/analyzer/orchestrator/unzipper.go:62-64 | for clean paths the textual prefix test is component-wise containment |
| `Archive.Unzip` | internal/server/extractor/extractor.go:51-116 | accepts exactly intact archives of at most ten entries and 1 MiB together, all regular files or directories with safe names |
| `Archive.Unzipper.Extract` | internal/analyzer/orchestrator/unzipper.go:25-101 | tree, bytes written and error are those of the entry-by-entry walk, for every disk fault |
| `ArchiveProperties.WithinBudget` | internal/analyzer/orchestrator/unzipper.go:80-97 | the bytes written never exceed the limit, whatever goes wrong |
| `Archive.Unpack` | internal/analyzer/orchestrator/unzipper.go:83-97 | while there is no error the remaining budget is positive |
| `ArchiveProperties.ExtractsIff` | internal/analyzer/orchestrator/unzipper.go:44-100 | extraction succeeds exactly when every destination passes, no file and directory collide, the files together are strictly below the limit and no directory or file meets a disk fault; then every file is there whole |
| `ArchiveProperties.FileKeys` | internal/analyzer/orchestrator/unzipper.go:75-92 | the files are then the old ones and the destinations of the regular entries |
| `ArchiveProperties.DirKeys` | internal/analyzer/orchestrator/unzipper.go:67-79 | and the directories the old ones and all that an entry needs |
| `ArchiveProperties.LastWriterWins` | internal/analyzer/orchestrator/unzipper.go:75-92 | a path ends up with the content of its last entry |
| `ArchiveProperties.OthersUntouched` | internal/analyzer/orchestrator/unzipper.go:75-92 | files that no entry names stay as they were |
| `ArchiveProperties.OutsideUntouched` | internal/analyzer/orchestrator/unzipper.go:58-64 | even when extraction fails, no file outside the base has changed |
| `ArchiveProperties.InsideIsContained` | internal/analyzer/orchestrator/unzipper.go:58-64 | the destination check is component-wise containment in the base |
| `ArchiveProperties.InsideBareBase` | internal/analyzer/orchestrator/unzipper.go:58-64 | with the root or the working directory as base only the base itself passes |
| `ArchiveProperties.StaysBelowIff` | internal/analyzer/orchestrator/unzipper.go:58-64 | passing the check means staying below the base exactly when the base does not end in ".." |
| `ArchiveProperties.SafeLands` | internal/server/extractor/extractor.go:92-102 | a name the server accepts lands at exactly that name below the base |
| `ArchiveProperties.AcceptedExtractsIff` | internal/server/extractor/extractor.go:65-116 | what the server accepts the analyzer extracts in full, under its default limit and without disk faults, exactly when no names collide |
| `ArchiveProperties.AcceptedButClashing` | internal/server/extractor/extractor.go:65-116 | there are accepted archives whose names collide |
| `EventBus.Bus.Subscribe` | internal/server/events/bus.go:24-30 | one more subscriber, while nobody publishes, with nothing offered to it yet |
| `EventBus.Bus.Publish` | internal/server/events/bus.go:32-42 | whatever other publications are under way, the loop is one publication: its beginning, one offer to each subscriber, its end; a subscriber with fewer than 100 events gets it last, a full one keeps what it has |
| `EventBus.Bus.Receive` | internal/server/events/bus.go:24-30 | the subscriber gets the event of the oldest publication buffered for it |
| `EventBus.Conservation` | internal/server/events/bus.go:24-42 | for every interleaving of publishers, subscriptions and receipts, received then buffered is an in-order subsequence of what was offered, short by exactly the dropped count |
| `EventBus.OfferedExactlyOnce` | internal/server/events/bus.go:32-42 | however publications overlap, each is offered exactly once to every subscriber that was there when it began and that it has come past, and to no other |
| `EventBus.SerialIsInOrder` | internal/server/events/bus.go:32-42 | if publications do not overlap, every subscriber is offered them in the order in which they began |
| `EventBus.DisagreeIff` | internal/server/events/bus.go:32-42 | from a reachable state with two publications under way, two subscribers not yet past both can still be offered them in opposite orders exactly if there is one behind where both stand, or, if they stand apart, if the one ahead has a subscriber left |
| `EventBus.SwappedOrders` | internal/server/events/bus.go:32-42 | a run from the empty bus that offers two publications to two subscribers in opposite orders |
| `EventBus.OverlapCanSwap` | internal/server/events/bus.go:32-42 | that run for two publications at one subscriber |
| `EventBus.OvertakingSwaps` | internal/server/events/bus.go:32-42 | and for two at different ones |
| `EventBus.DroppedIffFull` | internal/server/events/bus.go:35-40 | events are dropped exactly when an offer finds a backlog of 100 |

## Left out

- `internal/api`, the CLI, admin commands, routing, rate limiting, configuration and log polling: generated code, user interface or library wrappers.
- Firecracker, tap ownership, mount flags, Docker, ClamAV, Semgrep, pip-audit and Ollama: each is a value of the environment.
- AES-GCM, HMAC and the authentication middleware.
- SQL listing queries, log timestamps, wall-clock timing and back-off; a timeout is a step that may happen at any time.
- Nesting of the queue's retry and poison middleware: after an error the environment chooses retry, dead-letter or nack, in any order.
- The regex-based comment sanitizer, `createTarStream`, `findNewBootLog` and `snapshotLogFiles`.
- Panics and out-of-memory; a crash of a worker is a step of its own.
- Strings: in the strace parser a string is its bytes; in frames and logs it is valid text, and the replacement of invalid UTF-8 by Go's encoder is not modelled.
- `AgentProto.Conn.Receive`: reads what the encoder writes and objects of text and integer fields in any order; white space, other kinds of value and case-insensitive keys count as malformed here, and no peer sends them.
- `ExecuteQueue.DroppedIffTooLong`: the same holds of the queue's decoder.
- `Analysis.AnalyzeFile`: removing files at the end is taken to succeed; a finding on which the language model does not answer is skipped, as in the source.
- `PipelineSafety.DriveIsWriteOnce`: assumes one analysis per function, as `PipelineDuplicates.LateVerdictRewritesDrive` shows it must.
- `PipelineSafety.BuildsAreExclusive`: the same assumption.
- In the order of a build's commit unmounting counts as done once it is tried, as the agent only logs a failure.
- How much a pipe holds is a value of the environment, and processes that outlive the child keep no pipe open.
- In `Drives` the end of the machine's context is the last effect; the stop by the watcher behind it is `VmSession`'s.
- `Drives.Execute`: the leak of a downloaded drive whose file cannot be closed is stated, not excluded.
- `LogFidelity.EndToEndFidelity`: a line at or over the agent's own scanner limit ends that pipe for good, so the pipe's lines are those before it.
- `ArchiveProperties.ExtractsIff`: file modes, links in the target directory and opening the archive file are not modelled.
