# A Dafny model of the coding-agent harness

The harness lets a language model work on a repository under a policy, a budget and a human's
approvals, and records every step of a run in a hash-chained event log that a browser follows over
server-sent events. This project models the parts of it that carry unbounded guarantees and proves
those guarantees for all inputs, all histories and all interleavings. `dafny verify dfyconfig.toml`
verifies everything.

## How the model is organised

| files | component | kind of result |
|---|---|---|
| `RunState`, `Policy`, `Budget`, `Pipeline` | transition graph, policy engine and approval store, budget tracker, validation pipeline | exact characterisations, conservation of grants |
| `RunProtocol`, `RunLoop`, `RunHistory`, `RunBudget`, `RunWorld`, `RunOutcome`, `RunWitness` | the governed agent loop | safety and budgets over whole histories, what a run comes to in a steady world, and runs of the loop that reach the bounds |
| `RepoLocks`, `Ownership` | leases, runs and recovery across processes | safety over all interleavings, with crashes |
| `Session`, `LockTable`, `Cancellation`, `CancelMark` | single-flight session, reference-counted locks, cancelling a run | safety over all interleavings |
| `EventStore` | the hash-chained store | chain binding, injectivity |
| `EventFrames`, `EventLines`, `EventStream`, `EventClient`, `EventDelivery` | server-sent events, both ends | exactly-once delivery, chunking independence, what any text means to the client |
| `DirectoryWalk` | the bounded directory walk | the lazy walk refines the complete one, and what that lists |
| `PatchHeaders`, `PatchLines`, `PatchGrammar`, `PatchReaders`, `PatchViews`, `PatchMisread` | three readers of unified diffs | acceptance of exactly one grammar, exact views of two other readers, agreement |
| `Utf8`, `BoundedBuffer`, `JsonString`, `Redactor`, `ProgressDetector` | truncation, output buffer, redaction, progress | agreement of algorithms, round trips, refinement, non-reappearance |
| `Text`, `Wrappers` | strings, shared types | |

Code that changes things step by step is modelled by classes and loops whose contracts equate the new
state with a function of the old one; the functions then carry the theorems. Concurrency is modelled by
steps: one step is one critical section, one store call or one change of a file, and theorems quantify over
every sequence of enabled steps.

**The agent loop.** `RunLoop.Loop` follows `run`, `ResumeApproval`, `RejectApproval` and the approval session
branch by branch; `RunLoop.Controller` deletes the session as the controller does. Its provider, executor, clock,
cancellation and store faults answer arbitrarily; validation runs the pipeline over arbitrary answers of the
stages; and between its steps the service's other writers may stop the run, or move a waiting run back to
preflight, as a preflight approval does that comes late. The loop keeps a ghost history of what it does (store
writes with their expected state, validations, executions, provider calls, budget records, grants and
consumptions, appended events, writes from outside), and `Valid` says that this history is legal in the sense of
`RunProtocol.Legal`: every entry obeys the local rules `RunProtocol.Permitted`. `RunHistory` proves what follows
for any legal history, and so for any sequence of calls on a loop, including calls after errors that left a
pending entry behind. That a method call of the loop terminates, for any provider, is part of its verification.
The histories say what cannot happen. What does happen is proved for steady worlds (`RunWorld`), in which the
provider, the stages, the executor, the context and the clock answer the same on every occasion: each invocation
then reports exactly what `RunOutcome` expects of the configuration, and `RunWitness` runs the loop where that is
of interest.

**Findings stated as theorems.** Where the code does less than its documents suggest, the code is kept and
the exact condition is proved; where the failure needs a history or a text, one is built.

- The loop builds its policy context without the configured checks, so `run_check` is denied under every
  profile (`Policy.ChecksNeedConfiguration`), although the written design lets supervised and workspace-auto runs use it.
- Startup recovery goes through stored runs only. A lease left by a crash after its creation and before its run
  is stored can never be freed: it happens for every repository (`Ownership.OrphanHappens`), it lasts
  (`Ownership.OrphanIsForever`), and an unattended lease can be freed exactly when its run is stored
  (`Ownership.RecoverableIffStored`).
- A process forgets that it owns a repository only when its own release finds the matching lease file. When
  another process has recovered the run, the first one refuses the free repository
  (`Ownership.OwnersClearedOnlyWithTheFile`, `Ownership.FreeButRefused`, `Ownership.FreeButRefusedHappens`).
- `RecordMutation` comes after `Execute`, so one successful mutation can go over the budget, and no more than one
  (`RunHistory.BudgetBounds`). The loop lands it for every budget that the decisions exceed
  (`RunWitness.GoesOverBudget`, and by approvals `RunWitness.GoesOverByApprovals`), and a history keeps the budget
  exactly when no mutation landed in it with the budget used up (`RunHistory.MutationLimitKept`); which
  configurations have a history that does not is decided by their limits, profile and digests
  (`RunBudget.OverBudgetExactly`). Nothing follows it (`RunHistory.NothingFollowsOverBudget`).
- After a stop from outside at most one more action executes (`RunHistory.OverEndsExecution`). The loop does
  execute one (`RunWitness.ExecutesAfterStop`), and a history can go on with one exactly when the loop's copy is
  EXECUTING an action (`RunHistory.ExecutionAfterTheEnd`).
- A rejection is noted before it takes effect. When the store then refuses to move the run, the wait and its
  pending entry stay, and an approval that is admitted before the controller deletes the session executes the
  rejected action (`RunWitness.ExecutesRejected`). Once the rejecting invocation has ended, this is possible
  exactly if the session has not been closed and nothing has moved the stored run since it began to wait
  (`RunHistory.RejectedCanExecute`; `RunHistory.WaitCanExecute` decides it at every point of every history).
- `CancelRun` waits for the session only if the controller lists it. Whether a nil return leaves the session
  quiet for good is decided by the lookup: it does exactly if the session is found, or if no invocation is active
  and none can start (`Cancellation.CancelledExactly`). Neither holds when the start of a stored run is still to
  come (`Cancellation.CancelledTooEarly`), and when the session has been deleted while an invocation admitted in
  between is inside (`Cancellation.CancelledTooLate`). The stored run is over in any case
  (`Cancellation.NilMeansOver`).
- A registered secret can come back next to the marker. The replacement of secrets is safe for a secret, over all
  registered secrets and texts, exactly when it cannot overlap the marker (`Redactor.SafeIffNoTouch`); for the
  others secrets to register with it, and a text, are built (`Redactor.ShorterSecretRestores`,
  `Redactor.PartOfMarkerSurvives`).
- The policy's and the approval display's readers take hunk lines that look like file headers for headers. What
  each then sees is proved for every accepted patch (`PatchReaders.DisplayOnDocument`,
  `PatchReaders.PolicyOnDocument`), and so is when they agree with the reader that applies the patch
  (`PatchReaders.ThreeReadersAgree`). The display misses no file that the patch changes, and the policy, unless it
  refuses the patch, none but `/dev/null` (`PatchReaders.NoFileIsHidden`). But both can see a file that the patch
  does not change, and the policy can miss changed lines (`PatchMisread.MisreadPatch`, and
  `PatchMisread.MisreadFAndG` at one literal patch); and it always refuses a patch that ends in a hunk line that
  starts with three dashes and a space (`PatchReaders.HeaderLikeBodyIsMisread`).
- A project whose validation stages are all optional never passes its final validation (`Pipeline.Validate`), and
  so no run of it succeeds (`RunOutcome.SucceedsExactly`).
- `CancelRun` takes its mark off the run when it gives up waiting (`CancelMark.AnotherAfterGivingUp`), but not when
  the store fails while it stops the run: then no later cancellation of that run is ever admitted
  (`CancelMark.NoneAfterFailing`), and the run may be active (`CancelMark.FailingHappens`).

## Model

| member | source | states |
|---|---|---|
| RunHistory.SuccessIsEarned | internal/agent/loop.go:93-258 | in every history, success is preceded by a failed baseline, then a final validation in which some stage is required and every required stage exits normally with zero, with no execution after the latter; reviews never succeed |
| RunHistory.ApprovedExecution | internal/agent/loop.go:160-175 | each approved execution follows the stored wait for exactly that action, then a user's grant of its digest, then its consumption; in between nothing else is executed and the loop moves the stored run only to resume it |
| RunHistory.ApprovedOnce | internal/agent/loop.go:259-307 | between an execution and a later approved one there is a new wait and a new grant, whatever was retried or left pending |
| RunHistory.WaitCanExecute | internal/agent/loop.go:259-307 | at every point of every history, an approved execution can follow before the run waits again if and only if the stored run still waits, under a digest that can be granted, in an open session, or the execution is about to happen |
| RunHistory.RejectedCanExecute | internal/agent/loop.go:308-348 | after an invocation that noted a rejection has ended, the rejected action can still be executed if and only if the session is not closed and neither the rejection nor another writer has moved the stored run |
| RunWitness.ExecutesRejected | internal/agent/loop.go:324-334 | for every configuration in which an action needs approval, the loop executes it after a noted rejection of the same wait, when the store refuses to stop the run and an approval is admitted before the session is deleted |
| RunHistory.ProfileLimitsExecution | internal/policy/policy.go:40-86 | reviews execute no mutation, supervised runs none without approval, workspace-auto no guarded one without approval, unknown profiles nothing, nobody a check |
| RunHistory.StoredStatesArePath | internal/agent/loop.go:378-400 | stored states form a path of allowed transitions, and no illegal transition is even attempted |
| RunHistory.BudgetBounds | internal/budget/tracker.go:97-127 | at most (D+1)(R+1) provider calls over all invocations of one loop for D decisions and R protocol repairs, and at most one successful mutation over the budget of mutations |
| RunHistory.MutationLimitKept | internal/agent/loop.go:214-228 | at every point of every history the successful mutations are within their budget if and only if none of them was executed with the budget used up |
| RunBudget.OverBudgetExactly | internal/agent/loop.go:144-228 | some history of a configuration goes over the budget of mutations if and only if that budget is below the one of decisions and some mutation is allowed, or needs approval under a digest that can be granted |
| RunWitness.GoesOverBudget | internal/agent/loop.go:214-228 | for every budget of mutations below that of decisions, the loop lands exactly one mutation more in a steady world, and ends with the run stopped |
| RunWitness.GoesOverByApprovals | internal/agent/loop.go:259-307 | the same for mutations that need approval: the user approves each, and the loop lands exactly one more than its budget, and ends with the run stopped |
| RunHistory.ExecutionsAreDecided | internal/agent/loop.go:136-139 | at most D actions are executed, each on a decision of its own |
| RunHistory.NothingFollowsOverBudget | internal/agent/loop.go:225-228 | after an exceeded budget no call, validation or execution; the only write that can succeed stops the run for it |
| RunHistory.NoReproductionEndsRun | internal/agent/loop.go:102-113 | after a passed baseline the run is only stopped for want of a reproduction |
| RunHistory.MutationsAreValidated | internal/agent/loop.go:225-253 | every successful mutation is validated before the next provider call, execution or final validation |
| RunHistory.AuditIsComplete | internal/agent/loop.go:127-204 | before the run goes on, the events explaining each failure or denial have been appended in order |
| RunHistory.OverEndsExecution | internal/agent/loop.go:214-214 | once the stored run is over, whoever ended it, at most one more action executes |
| RunHistory.ExecutionAfterTheEnd | internal/agent/loop.go:160-214 | a history in which the stored run is over can go on with an execution if and only if the loop's copy is EXECUTING an action other than finish |
| RunWitness.ExecutesAfterStop | internal/agent/loop.go:214-214 | for every such configuration, another writer stops the run and the loop still executes the action |
| RunLoop.Writing | internal/agent/loop.go:378-400 | a permitted conditional update stays permitted when it fails, whatever others have written meanwhile |
| RunLoop.Loop.Start | internal/agent/loop.go:90-92 | unless the session is closed before, starting a run keeps the history legal and ends in failure with the local copy given up, or reports a terminal or waiting state that is the stored one, or the run was stopped since; a stop is reported with the code for which it was written last; in every steady world in which nobody else stops the run, it reports exactly the outcome that RunOutcome.From expects, and that state is stored |
| RunOutcome.SucceedsExactly | internal/agent/loop.go:93-258 | in every steady world left alone: the expected outcome is success if and only if the failure is reproduced, the provider is asked in time and finishes, the budget admits that, some stage is required and every required one exits with zero; a complete review, and a wait for approval, under exact conditions of the same kind |
| RunWitness.RunsItsCourse | internal/agent/loop.go:90-258 | for every configuration and every steady world in which nobody else stops the run, the loop reports the expected outcome, and that state is stored |
| RunWitness.FinishSucceeds | internal/agent/loop.go:179-213 | for every configuration with a decision to spend whose provider finishes, whose baseline fails and whose required stages, of which there is one, then pass, the loop reports success and the run is stored as succeeded; a review is reported and stored as complete |
| RunLoop.Loop.Drive | internal/agent/loop.go:93-258 | the loop terminates for every provider, keeps the history legal, and in every steady world left alone reports the expected outcome |
| RunLoop.Loop.Decide | internal/agent/loop.go:119-159 | each round that goes on has used up a decision or a protocol repair, and in a steady world leaves the expected outcome ahead as it was |
| RunLoop.Loop.Act | internal/agent/loop.go:176-257 | what follows an allowed action keeps the history legal; in a steady world left alone, a finish whose final validation passes ends the run as succeeded, that of a review as complete, and any other action leaves the expected outcome ahead |
| RunLoop.Loop.Resume | internal/agent/loop.go:259-307 | refused exactly without a matching pending entry and grant, and then pending entry, stored run and budget are as before; otherwise the history stays legal, and in a steady world left alone the expected outcome is reported; a reported end leaves no pending entry unless the budget of mutations is exceeded |
| RunLoop.Loop.Reject | internal/agent/loop.go:308-348 | refused exactly when the session is closed or without a matching pending entry, and then nothing changes; otherwise a reported end leaves no pending entry, and in a steady world left alone it stops the run for the rejection, or goes on to the expected outcome; in a steady world whose store refuses what follows the noted rejection, stored run and pending entry are as before |
| RunLoop.Loop.Approve | internal/app/composition_local.go:95-120 | refused exactly when the session is closed, not granted exactly without a matching pending entry or digest, and then pending entry, stored run and budget are as before; no grant outlives the call; in a steady world left alone a granted approval reports the expected outcome: a failed execution, a stop for the exceeded budget of mutations, or what the loop then comes to |
| RunLoop.Controller.Approve | internal/app/composition_local.go:95-119 | the outcome is that of the session; the session is closed afterwards exactly if it was before, or the outcome is a terminal state, an error other than an approval that was not granted, or a refusal |
| RunLoop.Controller.Reject | internal/app/composition_local.go:121-141 | the same for rejections and their mismatch |
| RunLoop.Loop.Await | internal/agent/loop.go:160-175 | when the run waits, the stored wait and the pending entry name this action; when the wait could not be stored, no pending entry is left |
| RunLoop.Loop.Update | internal/agent/loop.go:395-399 | the stored state changes exactly when the update succeeds, which needs the expected state |
| RunState.TerminalEndsPath | internal/domain/state.go:6-27 | a path that reaches a terminal state ends there |
| RunState.SuccessComesFromFinalValidation | internal/domain/state.go:6-27 | success is reached only through validation and final validation |
| Policy.ProfilesAreOrdered | internal/policy/policy.go:40-86 | review permits no more than supervised; supervised no more than workspace-auto except exactly for acceptable mutations of a dirty worktree |
| Policy.HardDenials | internal/policy/risk.go:31-43 | in every context an unregistered kind, arguments that do not parse and a prohibited fact are each denied |
| Policy.WhatReads | internal/policy/policy.go:40-86 | listing, searching, reading and finishing never wait for approval, and are allowed if and only if the profile is known, the arguments parse and nothing in them is prohibited |
| Policy.WhatMutates | internal/policy/policy.go:40-86 | in every context, dirty or not, exactly which mutations wait for approval and which are allowed |
| Policy.WhatNeedsApproval | internal/policy/policy.go:56-78 | exactly which actions the loop sends to approval |
| Policy.WhatMutatesUnasked | internal/policy/policy.go:56-82 | exactly which mutations the loop lets through |
| Policy.ChecksNeedConfiguration | internal/policy/risk.go:71-86 | a check goes ahead exactly when it is configured in the context, asked about under supervised and at once under workspace-auto; the loop configures none |
| Policy.EachGrantIsConsumedOnce | internal/policy/approval.go:52-96 | over any history of the store no digest is consumed more often than granted |
| Policy.ApprovalStore.Consume | internal/policy/approval.go:74-85 | true exactly for a live non-empty grant, which it removes |
| Policy.ApprovalStore.Grant | internal/policy/approval.go:61-71 | adds a non-empty digest and nothing else |
| Policy.ApprovalStore.Revoke | internal/policy/approval.go:89-96 | removes a non-empty digest and nothing else |
| Budget.Tracker.RecordDecision | internal/budget/tracker.go:97-105 | succeeds exactly below the limit and renews the protocol repairs |
| Budget.Tracker.RecordMutation | internal/budget/tracker.go:108-112 | succeeds exactly below the limit |
| Budget.Tracker.RecordProtocolRepair | internal/budget/tracker.go:115-119 | succeeds exactly below the limit |
| Pipeline.Run | internal/validation/pipeline.go:46-64 | stages run in order up to the first required failure, which is named; complete exactly when there is none |
| Pipeline.Validate | cmd/ai4se-harness/local.go:167-184 | final validation passes exactly when some stage is required and every required one has code EXIT and exit status zero; current validation exactly when there is a stage and every required one does so; the report names the first required stage that fails, else the last one considered |
| Pipeline.SomeResult | cmd/ai4se-harness/local.go:178-181 | there are stage results exactly when a stage was considered |
| Ownership.OneActiveRun | internal/app/service.go:170-236 | in every reachable state a run that is not over owns the lease of its repository, so there is at most one per repository |
| Ownership.FailedCreationFrees | internal/app/service.go:181-205 | in every reachable state, a creation whose lease cannot be written, or whose run cannot be stored, leaves leases, processes and runs as they were before |
| Ownership.StoredStatesFollowTheGraph | internal/app/service.go:420-530 | under all interleavings on stale copies the stored states form a growing path and terminal states are never left |
| Ownership.StepAppends | internal/app/service.go:515-530 | a step appends at most one state, exactly when a conditional update found the state it expected |
| Ownership.ReleaseIsSafe | internal/app/service.go:448-467 | a release removes at most the lease of a run that is over or will never be stored |
| Ownership.RecoverableIffStored | internal/app/service.go:490-513 | an unattended lease can still be freed exactly when its run reached the store |
| Ownership.OrphanHappens | internal/app/service.go:181-205 | for every repository a crash can leave a complete lease whose run was never stored and that nobody attends to |
| Ownership.RecoveryFrees | internal/app/service.go:490-513 | the recovery of a new process frees the repository of every stored run |
| Ownership.OrphanIsForever | internal/app/repolock.go:114-141 | an unattended lease whose run was never stored is never removed |
| Ownership.OwnersClearedOnlyWithTheFile | internal/app/repolock.go:153-174 | a process forgets a key exactly when its release finds the matching lease file |
| Ownership.FreeButRefused | internal/app/repolock.go:64-68 | a free key that a process still remembers is refused by it until another process takes it |
| Ownership.FreeButRefusedHappens | internal/app/service.go:490-513 | such a situation is reachable for every repository |
| RepoLocks.Locks.Acquire | internal/app/repolock.go:56-101 | busy exactly without a run, when the process remembers the key, or when its file is there and could be looked for; acquired exactly when not busy and without a fault; a fault leaves everything as it was, except a half-written file that could not be removed |
| RepoLocks.Locks.ReleaseEntry | internal/app/repolock.go:153-174 | removes the lease and the memory of it exactly when the file holds the run's record and can be read and removed, else forgets nothing |
| RepoLocks.Locks.ReleaseRun | internal/app/repolock.go:114-141 | releases the remembered key, or else a key whose readable file holds the run's record, or else nothing, also without a listing |
| RepoLocks.ReleaseUndoesAcquire | internal/app/repolock.go:56-174 | releasing what was just acquired restores files and process |
| RepoLocks.ReleaseIsExact | internal/app/repolock.go:153-174 | a release touches no other key and no other run's lease |
| Session.SingleFlight | internal/app/composition_local.go:177-202 | at most one invocation is inside a session |
| Session.Quiescence | internal/app/composition_local.go:204-218 | once cancelAndWait has returned nil no invocation runs, ever |
| Session.NothingStartsAfterCancel | internal/app/composition_local.go:180-188 | a cancelled session admits no invocation |
| Session.WaiterIsServed | internal/app/composition_local.go:194-200 | a waiter can wake up, or the invocation it waits for is still active |
| Session.WaiterCanReturn | internal/app/composition_local.go:204-218 | in every run of the steps, a waiter can return an error at any time, and nil once the invocation it waits for has come to its end |
| Session.CancellationTakesEffect | internal/app/composition_local.go:180-188 | from the step on that cancels the context or begins cancelAndWait, every invocation is refused |
| Cancellation.CancelledForGood | internal/app/service.go:355-385 | if the lookup of a cancellation finds the session, or no invocation is active and none can start (the context is cancelled, or the inputs were deleted before a session was made), then under every interleaving, from its nil return on, the stored run is over, no invocation is inside the session and none can start |
| Cancellation.CancelledExactly | internal/app/service.go:355-385 | in every reachable state, a nil return of a cancellation can be accompanied or followed by an invocation inside the session if and only if its lookup finds no session, and an invocation is active or one can start |
| Cancellation.NilMeansOver | internal/app/service.go:420-445 | whenever a cancellation has returned nil the stored run is over, then and later |
| Cancellation.CancelledTooEarly | internal/app/service.go:238-244 | a reachable state in which a cancellation misses a run that is stored and whose start is still to come |
| Cancellation.CancelledTooLate | internal/app/composition_local.go:168-175 | a reachable state in which a cancellation misses a session that has been deleted with an invocation inside |
| CancelMark.OneCancellation | internal/app/service.go:355-385 | in every reachable state at most one cancellation of the run is under way |
| CancelMark.NothingIsAdmitted | internal/app/service.go:368-373 | once a cancellation has been announced for a run whose context exists, no invocation is ever admitted |
| CancelMark.NilReleases | internal/app/service.go:448-467 | a nil return takes the mark and the inputs away and cancels the context |
| CancelMark.AnotherAfterGivingUp | internal/app/service.go:375-380 | when a cancellation gives up waiting, another thread can cancel the run if and only if it is not over |
| CancelMark.NoneAfterFailing | internal/app/service.go:381-383 | when a cancellation fails because the store does, no later one is ever admitted |
| CancelMark.FailingHappens | internal/app/service.go:355-385 | such a failure is reachable with the stored run active |
| LockTable.MutexFamily | internal/credentials/service.go:229-252 | one thread per reference inside, users equals the registered threads, an entry exists exactly while the reference is used |
| LockTable.NoDeadlock | internal/credentials/service.go:229-252 | while a thread is busy some busy thread can step |
| EventStore.EncodingInjective | internal/store/store.go:72-91 | the length-prefixed encoding determines all six hashed fields |
| EventStore.FieldsInjective | internal/store/store.go:73-80 | a sequence of fields can be read back from its encoding |
| EventStore.EncodingIs | internal/store/store.go:73-89 | what is hashed is run, sequence, type, time, payload and previous hash, in this order, each behind its length |
| EventStore.WordValue | internal/store/store.go:74-83 | lengths, sequences and times are written in eight bytes, the most significant first, modulo 2^64 |
| EventStore.AppendKeepsChain | internal/store/memory.go:142-151 | appending keeps the numbering, the links and the hashes |
| EventStore.ChainBinding | internal/store/store.go:58-91 | chains with the same last hash are equal, or the comparison exhibits two encodings with one hash |
| EventStore.TamperingNeedsCollision | internal/store/store.go:58-91 | changing a chain under the same last hash needs a collision |
| EventStore.MemoryStore.CreateRun | internal/store/memory.go:40-55 | stores the snapshot of a new run, or changes nothing |
| EventStore.MemoryStore.CreateRunWithEvent | internal/store/memory.go:57-78 | stores the snapshot and the first event together, or nothing; the event has the given type and payload, the time of the call and the number one |
| EventStore.MemoryStore.UpdateRunIfState | internal/store/memory.go:98-124 | snapshot and one event change together, exactly when the stored state is the expected one; the event has the given type and payload, the time of the call, the next number and the link to the one before |
| EventStore.MemoryStore.AppendEvent | internal/store/memory.go:126-140 | appends one event to an existing run and nothing else; it has the given type and payload, the time of the call, the next number and the link to the one before |
| EventStore.MemoryStore.ListEvents | internal/store/memory.go:213-233 | returns exactly the end of the chain from the given sequence on |
| EventFrames.SplitFramesConcat | web/src/api/client.ts:202-224 | splitting a text that arrives in two pieces |
| EventFrames.ChunkingIsIrrelevant | web/src/api/client.ts:202-224 | however a text is cut into chunks, the frames are those of the whole text |
| EventFrames.ConsumeResponse | web/src/api/client.ts:202-224 | the incremental reader equals reading the whole response at once |
| EventLines.LinesExactly | web/src/api/client.ts:230-234 | a text is cut into lines at each line feed, with the carriage return before it if there is one, and nowhere else |
| EventLines.FramesExactly | web/src/api/client.ts:216-217 | a frame ends at the first place where one of the four blank lines begins, and nowhere else |
| EventLines.TrimExactly | web/src/api/client.ts:226-234 | trimming takes away all white space at both ends and nothing else |
| EventLines.FieldsOfLines | web/src/api/client.ts:228-234 | the last identifier and the last type of a frame count, the type is RunEvent without one, and all its data counts, in order |
| EventLines.FrameExactly | web/src/api/client.ts:226-249 | a frame hands over exactly the event that it carries and the highest sequence is remembered; a comment, and a frame without a safe positive identifier, without data or without JSON, changes nothing |
| EventClient.RunEventStream.Run | web/src/api/client.ts:149-200 | each connection asks for what follows the last event seen; they end with a stop, in a connection or in the pause after it, with an abort, or with the allowance; the whole sequence of announcements is the one due, connection by connection |
| EventClient.RunEventStream.Serve | web/src/api/client.ts:157-174 | one connection hands over its text and announces itself exactly when a read has returned, as a reconnection exactly when something was seen or tried before |
| EventStream.CursorRoundTrip | internal/httpapi/events.go:77-86 | the header the client sends makes the server continue with the next event |
| EventStream.HeaderExactly | internal/httpapi/events.go:77-86 | a blank header asks for the first event, a decimal numeral below the largest 64-bit number, with leading zeros or without, for the event after it, and every other text is malformed |
| EventStream.SafeEventType | internal/httpapi/events.go:126-137 | the event type is never empty and has no control character, a type without any is kept as it is, and RunEvent stands for one without anything else |
| EventStream.ControlsAreDropped | internal/httpapi/events.go:126-137 | a control character changes nothing wherever it stands, so exactly the control characters are dropped |
| EventStream.WriteEvents | internal/httpapi/events.go:88-124 | sends the frames up to the first failed write, and the cursor, also after a failed write, is the sequence of the first event not sent; it stays at the largest sequence, as a failure, instead of passing it |
| EventStream.ConsumeWhole | web/src/api/client.ts:226-249 | a frame as the server writes it delivers exactly its event |
| EventStream.PartialIsIgnored | web/src/api/client.ts:220-223 | a frame cut anywhere, even inside a character, delivers nothing |
| EventStream.ExactlyOnceInOrder | internal/httpapi/events.go:45-75 | over all interleavings the client has received events 1 to k, once, in order, as stored |
| EventStream.NothingLost | internal/httpapi/events.go:45-75 | everything below the server's cursor has been delivered once the wire is empty |
| EventStream.CanCatchUp | web/src/api/client.ts:149-200 | from every reachable state some continuation delivers every stored event |
| EventDelivery.ServedInOrder | web/src/api/client.ts:149-200 | over any number of connections, each refused, broken off or ended anywhere, whose texts come from a server that resumes at the cursor asked for, the client has been handed events 1 to k, once and in order, and all events after a connection that hands over all that are left |
| EventDelivery.FollowRun | web/src/api/client.ts:149-200 | the same of the run loop of the client, called on a new one |
| EventDelivery.PrefixFollows | internal/httpapi/events.go:88-124 | every prefix of the frames that the server writes from a cursor on is such a text, with nothing missing when it is all of them |
| DirectoryWalk.BoundedFiles | internal/tools/search.go:152-192 | exactly the first files of the complete sorted walk, truncated exactly when there are more, no directory read past the first omitted file; of any two files the earlier is a prefix of the later or has the smaller character where they first differ |
| DirectoryWalk.WalkLists | internal/tools/search.go:109-150 | the complete walk lists a path if and only if it joins the names on the way to a regular file, is not absolute, and no component in lower case is .git, begins with .env, or contains secret, credential or vault |
| DirectoryWalk.LeqIsInOrder | internal/tools/search.go:166-166 | the order of the keys is that of the first differing characters |
| DirectoryWalk.Turn | internal/tools/search.go:160-188 | one round keeps found and outstanding files together the complete walk, and makes progress |
| DirectoryWalk.ProtectionIsInherited | internal/workspace/path.go:89-97 | what is below a directory that does not resolve does not resolve |
| DirectoryWalk.ReadDirectoryIsVisit | internal/tools/search.go:204-229 | expanding a directory replaces it by exactly what the complete walk lists below it |
| DirectoryWalk.UnresolvedListsNothing | internal/tools/search.go:105-150 | skipping a directory that does not resolve loses nothing |
| DirectoryWalk.SortedIsUnique | internal/tools/search.go:145-149 | there is one sorted list of the same files |
| PatchHeaders.ParsePatchHeaders | internal/tools/patch_headers.go:14-116 | the loop over counters and flags computes the line-by-line scan |
| PatchHeaders.ScannedConcat | internal/tools/patch_headers.go:31-79 | scanning resumes at any line boundary |
| PatchLines.NothingBinary | internal/tools/patch_headers.go:15-17 | an empty text and one with a NUL or a mark of a binary patch are refused, and no other text before its lines are read |
| PatchLines.LimitsExactly | internal/tools/patch.go:173-181 | limits outside one to five files and one to 500 changed lines become five and 500 |
| PatchLines.LineOutsideHunks | internal/tools/patch_headers.go:38-79 | outside hunks, a line with one of the seven forbidden beginnings ends the patch, and a line that begins no header can be dropped |
| PatchLines.NothingForbidden | internal/tools/patch_headers.go:38-42 | no accepted patch has a line with a forbidden beginning outside its hunks |
| PatchLines.LineInHunk | internal/tools/patch_headers.go:88-116 | the first character of a line in a hunk decides what it counts for, and the marker of a missing newline counts for nothing |
| PatchLines.PathExactly | internal/tools/patch_headers.go:152-162 | a file header names a path if and only if its first word is the prefix and that path |
| PatchLines.HunkHeaderExactly | internal/tools/patch_headers.go:118-150 | a hunk header declares these numbers of lines if and only if it spells at least four words, the outer two signs and the inner two ranges, each with its sign, a start and an optional decimal count |
| PatchGrammar.PrintedIsRead | internal/tools/patch_headers.go:14-86 | printing a document and reading it gives back paths and changed lines, or the limit error |
| PatchGrammar.AcceptedIsPrinted | internal/tools/patch_headers.go:14-86 | everything accepted is the text of a document within the limits |
| PatchGrammar.AcceptsExactlyTheDocuments | internal/tools/patch_headers.go:14-86 | acceptance with given paths and count, if and only if the patch prints such a document |
| PatchGrammar.HunkHeaderRoundTrip | internal/tools/patch_headers.go:118-150 | a printed hunk header is read back |
| PatchGrammar.HeaderRoundTrip | internal/tools/patch_headers.go:152-162 | printed file headers are read back |
| PatchReaders.ValidatePatch | internal/policy/risk.go:112-167 | the policy's loop computes its view of the patch |
| PatchReaders.AffectedFiles | internal/agent/approval.go:191-213 | the display's loop computes its view of the patch |
| PatchReaders.DisplayOnDocument | internal/agent/approval.go:191-222 | on every document the display finds exactly its paths and the names in header-like lines of each file's hunks |
| PatchReaders.PolicyOnDocument | internal/policy/risk.go:112-167 | on every document: exactly when the policy refuses it, and otherwise which files and pairs it finds, and that what it counts and the header-like lines of hunks together make the changed and the stray lines |
| PatchReaders.NoFileIsHidden | internal/policy/risk.go:112-167 | for every accepted patch, whatever its hunks contain, the display shows every path, and the policy, if it does not refuse the patch, finds every path but /dev/null |
| PatchReaders.ReadersOnDocument | internal/policy/risk.go:122-156 | what both views are on every document without header-like hunk lines |
| PatchReaders.ThreeReadersAgree | internal/agent/approval.go:179-222 | for every accepted patch: the display agrees on the files if and only if header-like hunk lines show only paths of the patch; the policy if and only if /dev/null is no path and those lines survey cleanly and name only paths; the policy's count is short, or the same, exactly when those lines outnumber, or equal in number, the stray signed ones |
| PatchReaders.HeaderLikeBodyIsMisread | internal/policy/risk.go:126-149 | an accepted patch whose last line is a hunk line like an old file header is refused by the policy |
| PatchViews.DisplayExactly | internal/agent/approval.go:191-222 | for every text, the display shows exactly the paths of new file headers, and where one names none, that of the old header right before it |
| PatchViews.PolicyExactly | internal/policy/risk.go:112-167 | for every text, exactly when the policy refuses it, and otherwise exactly which files it finds and how many lines it counts |
| PatchMisread.MisreadPatch | internal/tools/patch_headers.go:31-79 | for every two plain names, a patch of the one that the patch reader reads as two changed lines, and that both other readers take for a patch of both files, without any changed line for the policy |
| PatchMisread.MisreadFAndG | internal/agent/approval.go:191-213 | the same at one literal patch |
| Utf8.Bounded | internal/agent/approval.go:169-177 | the backward scan returns the longest valid prefix |
| Utf8.TruncateUtf8 | internal/tools/read.go:53-58 | the backward scan returns the longest valid prefix |
| Utf8.Clip | internal/feedback/compress.go:47-63 | the forward decode returns the longest valid prefix of any bytes |
| Utf8.ChopUntilValid | internal/executor/local.go:290-297 | chopping until valid returns the longest valid prefix |
| Utf8.DiagnosticMessage | internal/executor/local.go:286-297 | the diagnostic message is the longest valid prefix within its limit |
| Utf8.TruncationsAgree | internal/feedback/compress.go:50-63 | results of any of the algorithms on well-formed text are equal |
| Utf8.TruncateFourWays | internal/agent/approval.go:169-177 | the four algorithms return the same prefix |
| Utf8.LongestIsLong | internal/tools/read.go:53-58 | that prefix is longer than the limit less four bytes |
| Utf8.BoundaryIsRuneStart | internal/tools/read.go:54-56 | in well-formed text boundaries are exactly the starting bytes |
| Utf8.ValidIffEncoded | internal/feedback/compress.go:50-63 | the bytes that count as text are exactly the encodings of sequences of Unicode scalar values, by section 3 of RFC 3629 |
| Utf8.HeadOfEncoding | internal/feedback/compress.go:53-60 | at the head of the encoding of any scalar value, whatever follows it, its whole length is read |
| BoundedBuffer.Buffer.Write | internal/executor/local.go:244-259 | the buffer holds the first bytes of everything written and knows whether there were more |
| Redactor.PlainSecretsDoNotTouch | internal/feedback/redact.go:71-86 | secrets without brackets that are no part of the marker's word cannot overlap the marker |
| Redactor.SafeUnderCutsIffNoTouch | internal/feedback/redact.go:78-85 | replacing one span, possibly empty, by the marker never creates an occurrence of a secret if and only if the secret cannot overlap the marker |
| Redactor.SafeIffNoTouch | internal/feedback/redact.go:71-80 | whatever is registered with a secret, in whatever order of equal lengths the registry is sorted, and whatever the text, the replacement of secrets leaves that secret out of the result, if and only if it cannot overlap the marker |
| Redactor.ShorterSecretRestores | internal/feedback/redact.go:38-80 | for every secret that overlaps the marker and reaches beyond it: one shorter secret to register with it, the sorted registry of both and their JSON-escaped forms, and a text, for which it is in the result |
| Redactor.NothingComesBack | internal/feedback/redact.go:78-80 | whatever occurs after a replacement was there before and is not the secret, or overlaps the marker |
| Redactor.ReplaceAllRedacts | internal/feedback/redact.go:78-80 | replacing one secret removes it and brings back none removed earlier |
| Redactor.NothingComesBackInSpans | internal/feedback/redact.go:81-85 | the same for a pass over arbitrary disjoint spans |
| Redactor.PartOfMarkerSurvives | internal/feedback/redact.go:78-80 | a secret that is part of the marker occurs again after its own replacement |
| Redactor.Redactor.Redact | internal/feedback/redact.go:71-86 | no registered secret that cannot overlap the marker is in the result |
| Redactor.Redactor.Register | internal/feedback/redact.go:38-69 | the registry is exactly the registered secrets and their JSON-escaped forms, without empty ones and repetition, longest first |
| JsonString.EscapeIsRead | internal/feedback/redact.go:59-63 | the JSON-escaped form of every text, between quotation marks, is read back by the rules of RFC 8259 as one string, that text |
| JsonString.EscapeIsHarmless | internal/feedback/redact.go:59-63 | the escaped form has no control character, none of the characters that HTML or JavaScript treats specially, and quotation marks and backslashes only in escapes, by the round trip |
| JsonString.WhatIsEscaped | internal/feedback/redact.go:59-63 | exactly the special characters are escaped, each in one form: seven short ones, else four lower-case digits |
| Redactor.ByteLengthIsOfBytes | internal/feedback/redact.go:67-67 | the length by which the registry is sorted is that of the UTF-8 encoding |
| Redactor.PassCutsEachSpan | internal/feedback/redact.go:81-85 | a pass puts the marker in the place of each of its spans and leaves the rest as it was |
| Redactor.SecretsInTurn | internal/feedback/redact.go:78-80 | every registered secret has its turn, in order |
| Redactor.PatternsInTurn | internal/feedback/redact.go:81-85 | every pattern has its turn, in order, on what is left of the text then |
| ProgressDetector.ProgressDetector.Observe | internal/budget/progress.go:35-66 | stop exactly when the trailing block of equal observations reaches the threshold; warning exactly for the same failure with another diff |
| ProgressDetector.TrailingRunIsLongestBlock | internal/budget/progress.go:35-66 | the trailing run is the longest block of equal non-empty observations at the end |

## Left out

- EventStream.ExactlyOnceInOrder: assumes that ids stay below 2^53, that an event type is one line without surrounding white space, and that no proper prefix of a data text parses; it models one client and one run, text already decoded from UTF-8 except for a character torn by the end of a response, and JSON parsing as a function.
- Redactor.Redactor.Redact: states nothing for secrets that can overlap the marker; Redactor.SafeIffNoTouch shows that the replacement of secrets alone already leaves each of them in some result. The regular expressions are arbitrary disjoint spans, and the failing results are those before the patterns are applied. Secrets are sequences of Unicode scalar values, so invalid UTF-8 is not modelled.
- Cancellation.CancelledExactly: the context of a run is made once, its inputs are entered and taken once, and its session is made once; the process does not crash between the steps of a call. What an invocation can still do that a cancellation has missed is bounded by RunHistory.OverEndsExecution.
- RunLoop.Loop.Drive: the content of feedback and of event payloads is not modelled, only which events are owed; a progress detector may stop a run arbitrarily if one is installed (the command of this repository installs none).
- RunLoop.Loop.Approve: one loop object serves one run, as the session does; the session is closed between invocations only, since closing it during one shows only as a cancellation; a second start of the run, with a fresh tracker, is not modelled, so RunHistory.BudgetBounds is about one loop; the digest of an action is an arbitrary function, so nothing rests on a hash.
- Ownership.OneActiveRun: run ids are fresh, the key of a repository is stable, a store call that fails has stored nothing, and releaseEntry is one step.
- DirectoryWalk.BoundedFiles: the tree is finite, does not change and has no I/O errors; names are clean, paths are Unix paths, and case folding is character by character, in ASCII as usual and elsewhere arbitrary but for the slash.
- Utf8.DiagnosticMessage: ToValidUTF8 is taken to give well-formed text; the JSON wrapping of the message is not modelled.
- PatchReaders.ValidatePatch: classification of each path and the guard limits on files and lines enter the policy as facts about the action, as do all results of inspecting JSON arguments.
- EventStore.EncodingInjective: the hash is any function on bytes; times are signed 64-bit nanoseconds and lengths are below 2^64.
- Session.SingleFlight, LockTable.MutexFamily: steps are atomic at the granularity of critical sections; panics inside an invocation are not modelled.
- The service's in-memory maps of inputs, pending preflight approvals, cancel functions and stopping flags, and the preflight checks themselves.
- The unconditional UpdateRun, artifacts, listing and pagination of runs, and the SQLite store.
- The wall clock of the budget and context deadlines: both are arbitrary answers in the loop.
- Fairness: the concurrent models state what can never happen and what can still happen, not what must happen eventually.
- The stop and state callbacks of the stream client between chunks of one response, and data texts equal to the JSON null value.
- HTTP routing, authentication, provider clients, command line, web pages, keyring and vault back ends, process control, Git access, cryptography.
