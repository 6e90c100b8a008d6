# Wright: verified models of its core protocols

Wright is a coding agent written in Python and TypeScript. This project models eight of its
protocols in Dafny and proves what they promise over every run, interleaving, crash or input.
Where a promise turns out not to hold of the code, the code is modelled as it is, a concrete input
shows the failure, and the exact condition under which the promise holds is proved.

- `Journal`, `JournalStore`: the write-ahead journal for permission files. The disk is a map of files
  and a map of logs; every replacement and every unlink is one atomic step that may work, raise before
  or after its effect, or kill the process before or after it, in recovery too.
- `Directory`, `DirectoryProofs`, `DirectoryCoordinator`: the queue for an execution directory. Each
  critical section is a step of a machine, and so are the gaps between them; the coordinator class is
  shown to take exactly those steps.
- `Handshake`: the publisher and the reader of a background command, interleaved step by step, with
  close() as a third thread.
- `AgentLoop`, `SessionRecovery`: one run of the agent over its session, in an environment where every
  outside call may raise at any moment, and the repair of the transcript when a session is loaded.
- `Context`: the projection of a session onto one model request.
- `Guard`: permission grants, revocations, versions and issued guards.
- `Reducer`, `ReducerProofs`, `ReducerSteps`: the web view as a fold over an event stream.
- `Cycles`: the import-cycle detector.
- `Recall`, `Splitter`: text that has to fit a token budget or a chunk size.

`dafny verify dfyconfig.toml` checks the whole project.

## What does not hold as such

- `acquire` can lose the lease it was waiting for, and the directory then stays occupied for ever. A
  poller that finds itself cancelled leaves without a look at a lease granted since its last poll
  (`DirectoryProofs.LeakyRun`); and when telling the user of the wait raises, the waiter stays in the
  queue and is later granted a lease nobody receives (`DirectoryProofs.AbandonedRun`).
  `DirectoryProofs.LeaseConservation` and `DirectoryProofs.OrphansAreLost` say which steps lose one;
  no others do.
- A unit of work can leave its log behind: its PREPARED record is written but raises, its recovery
  fails, or its last unlink fails. Only the outermost transaction recovers, so if the caller carries on
  inside the same open one, that log can undo a later unit that returned
  (`JournalStore.RetryIsUndone`, with the failure that leads there); `Journal.StaleLogs` says exactly
  when, and `JournalStore.RecoveryKeeps` for any run of such acts.
- A grant or revocation that raises and is rolled back in memory is in force all the same exactly when
  its COMMITTED record had reached the disk: writing that record raised after its rename, or removing
  the log raised (`Guard.GrantedAllTheSame`, `Guard.RevokedAllTheSame`, `Guard.GrantOutlivesRollback`).
  Memory and files then differ until the permissions are next read (`Guard.PermissionService.Commit`).
  One whose notification raises is in force in both.
- A run whose model reports a cancellation that nobody asked for never reaches a terminal status
  (`AgentLoop.StrayReplyLeavesTheRunLive`); every other exit does (`AgentLoop.Agent.RunLoop`).
- An exception between a request for tools and their results leaves the transcript without replies;
  which failing calls do is `AgentLoop.Agent.Interrupts`, and a run ends so exactly when its last
  request asked for tools and carrying that out was interrupted (`AgentLoop.Agent.RunLoop`,
  `AgentLoop.CrashLeavesAGap`). Later runs of the same process go on behind the gap, and loading the
  session closes it (`SessionRecovery.RecoveryRestoresExactly`).
- A background lease is not released without an attached coordinator, nor when close() comes before
  the publisher's look at the table and the reader's look comes before the lease is stored; in every
  other schedule it is (`Handshake.HandedBackExactly`, `Handshake.UnattachedLease`,
  `Handshake.ForgottenLease`). The end of a published command is announced unless retaining the lease
  raises after the reader was done before the publisher (`Handshake.AnnouncedExactly`,
  `Handshake.LostAnnouncement`).
- With a watermark above 1 dropping an optional reminder would do harm
  (`Context.WatermarkAboveOneBreaksIt`).
- The docstring of `split_text` promises chunks of bounded size, but carried items and joining newlines
  come on top of `chunk_size` (`Splitter.ChunkLongerThanSize`). The longest chunk is exactly
  max(size + 2 * overlap, 2 * size - 3) characters (`Splitter.LongestChunkExactly`), and the size bounds
  every chunk exactly when nothing overlaps and the size is at most 3, or, if text is only cut into
  windows, when the overlap is less than two thirds of the size (`Splitter.SizeKeptExactly`). Without
  the empty separator nothing bounds a chunk (`Splitter.NoBoundWithoutWindows`).
- Semantic recall exceeds its budget exactly when the header of its index does, which is never checked
  by itself; then the text is that header and costs at most 5 tokens more (`Recall.RenderSemantic`). For
  every text around the memories, of one token or more, there is such a budget
  (`Recall.HeaderOverrun`).

## Model

Rows marked (def.) spell out what a definition says, for a reader; the results are in the other rows.

| member | source | states |
|---|---|---|
| Cycles.CheckCycles | scripts/check_cycles.py:25-48 | the exit code is 1 exactly when the graph restricted to its own modules has a cycle; every reported list is a simple cycle of it; an edge is reported exactly when it leads backwards in the order in which the search leaves modules, each once; so every cycle contains the closing edge of a report |
| Cycles.CyclesGoBackward | scripts/check_cycles.py:28-39 | every cycle has an edge that leads backwards in any order of its modules |
| Cycles.TopologicalMeansAcyclic | scripts/check_cycles.py:28-39 | modules that can be listed so that imports only point backwards have no cycle; the order in which the search leaves modules is such a list |
| Cycles.Finder.Dfs | scripts/check_cycles.py:28-39 | a visit restores the stack, finishes its module, forgets no report and keeps grey = on the stack, black = finished |
| Cycles.Finder.Record | scripts/check_cycles.py:34-35 | an edge back into the stack adds one report: the stack from that module on, closed |
| Journal.RecoveryRunsKeepView | src/wright/infrastructure/permission_transaction.py:134-165 | however often processes die while recovering, the disk stands for the same files, and a recovery that ends leaves exactly those |
| Journal.RecoveryStepKeepsView | src/wright/infrastructure/permission_transaction.py:149-156 | each single replacement or unlink of a recovery keeps what the disk stands for |
| Journal.BufferIsFaithful | src/wright/infrastructure/permission_transaction.py:88-97 | rewriting a path keeps its first before-image; the overlay imposed on the disk is the disk after the write |
| Journal.SeenIsDirect | src/wright/infrastructure/permission_transaction.py:78-85 | a read inside a unit sees what it would if all writes had taken effect at once |
| Journal.DirectInOrder | src/wright/infrastructure/permission_transaction.py:187-193 | immediate writes in two parts are the one after the other, unless the first raises |
| Journal.OneOperation | src/wright/infrastructure/permission_transaction.py:78-97 | (def.) what each operation reads, changes or raises |
| Journal.RollbackRestores | src/wright/infrastructure/permission_transaction.py:202-215 | the before-images put the disk back however far the replacements had got |
| Journal.PreparedView | src/wright/infrastructure/permission_transaction.py:197-206 | while the log says PREPARED the disk stands for the files at unit start |
| Journal.CommittedView | src/wright/infrastructure/permission_transaction.py:207-208 | once the log says COMMITTED it stands for the new files |
| Journal.StaleLogs | src/wright/infrastructure/permission_transaction.py:161-173 | what a unit has written beside any logs left over in an open transaction survives the next recovery exactly when, at each of its paths, the last log that mentions the path wants the same |
| Journal.ViewAt | src/wright/infrastructure/permission_transaction.py:161-165 | recovered in name order, a file ends as the last log that mentions it says |
| JournalStore.RetryIsUndone | src/wright/infrastructure/permission_transaction.py:186-221 | a unit whose PREPARED record is written but raises, tried again in the same transaction: the second try returns and is committed, and the next recovery undoes all of it |
| JournalStore.Store.RecoverLog | src/wright/infrastructure/permission_transaction.py:134-158 | recovering the first log keeps what the disk stands for, touches only its paths, drops the log only when done, and refuses an unreadable one without changes |
| JournalStore.RecoveringExactly | src/wright/infrastructure/permission_transaction.py:146-156 | over all fates: the recovery of a log works exactly when its replacements and its unlink do, and a failing replacement does not keep the others from being made |
| JournalStore.Store.ReplaceAll | src/wright/infrastructure/permission_transaction.py:146-152 | every replacement that took effect is in place, whatever became of the others; the outcome follows from the fates |
| JournalStore.Store.Recover | src/wright/infrastructure/permission_transaction.py:161-165 | a recovery that returns leaves no log and the files the disk stood for |
| JournalStore.Store.Commit | src/wright/infrastructure/permission_transaction.py:195-221 | by its own log the store stands for the new files if COMMITTED reached the disk and for the old ones if not, whatever fails or dies; logs of others stay; if nothing fails it succeeds |
| JournalStore.Store.ApplyEntries | src/wright/infrastructure/permission_transaction.py:202-221 | the same from the PREPARED record on; how it ends follows from the fates of the disk steps as ApplyEnd says |
| JournalStore.UnitEndExactly | src/wright/infrastructure/permission_transaction.py:195-221 | over all fates: a unit commits exactly when its log and replacements work and the COMMITTED record takes effect, and raises although committed exactly when that record raises after taking effect or the unlink raises, and nothing kills the process |
| JournalStore.Store.Body | src/wright/infrastructure/permission_transaction.py:187-193 | a body reads and leaves in the overlay what immediate writes would give, and the disk is untouched |
| JournalStore.Store.BufferWrite | src/wright/infrastructure/permission_transaction.py:88-97 | a write of a permitted path replaces or adds its overlay entry; any other raises |
| JournalStore.Store.WriteThrough | src/wright/infrastructure/permission_transaction.py:88-93 | with a transaction open or no log left over it ends as its replacement does and the files change exactly when that takes effect; otherwise recovery comes first, and when nothing fails and every log can be read it succeeds; a path outside raises and changes nothing |
| JournalStore.Store.Work | src/wright/infrastructure/permission_transaction.py:187-221 | inside an open transaction, whatever logs are left over: the files go to what running the body with immediate writes gives exactly when the commit record reached the disk |
| JournalStore.Store.UnitOfWork | src/wright/infrastructure/permission_transaction.py:169-221 | the same for what the store stands for, with logs left over too: how it ends and whether it takes effect follow from the fates of recovery and unit; a raising body changes nothing, a unit that returns leaves no log, and when nothing fails it returns |
| JournalStore.Store.Transaction | src/wright/infrastructure/permission_transaction.py:168-183 | units and single writes in one transaction, which the first exception leaves, serialise to the committed ones; one that returns has done all its acts, and when nothing fails and every body finishes it returns |
| JournalStore.Store.History | src/wright/infrastructure/permission_transaction.py:78-221 | over any number of units, single writes and transactions of several, failing, crashing and restarted, the store stands for the committed acts applied in order; when nothing fails, every act that finishes is among them |
| JournalStore.Store.CarryOn | src/wright/infrastructure/permission_transaction.py:168-221 | any run of acts in one open transaction whose caller carries on after exceptions: each log left over is of one of its units, and elsewhere the files are as the committed acts say |
| JournalStore.RecoveryKeeps | src/wright/infrastructure/permission_transaction.py:161-165 | the next recovery then keeps what the committed acts made of a path exactly when no log left over mentions it or the last that does wants the same |
| DirectoryProofs.RunsKeepInv | src/wright/application/execution/directory.py:91-222 | exclusion, index of leases, queues without cancelled waiters and first come first served hold in every state of every run |
| DirectoryProofs.ServedInOrder | src/wright/application/execution/directory.py:103-195 | live leases of one directory descend from one top-level grant; whoever queues has somebody to wait for; grants are the arrivals less those that withdrew |
| DirectoryProofs.WokenOnce | src/wright/application/execution/directory.py:127-137 | (def.) in a state of a run a woken waiter is cancelled or has a lease, never both: the branch that gives a lease back is not taken |
| DirectoryProofs.LeaseConservation | src/wright/application/execution/directory.py:121-137 | every step conserves leases except a drop or an exception whose waiter has just been granted one, and a release that hands over to a waiter an exception has left in the queue |
| DirectoryProofs.OrphansAreLost | src/wright/application/execution/directory.py:121-137 | in every run the leases nobody can release are exactly those lost by such steps |
| DirectoryProofs.LostForGood | src/wright/application/execution/directory.py:163-195 | a lost lease keeps its directory occupied in every later state |
| DirectoryProofs.LeakyRun | src/wright/application/execution/directory.py:123-126 | a run of four steps whose poller loses a lease |
| DirectoryProofs.AbandonedRun | src/wright/application/execution/directory.py:121-122 | a run without cancellation: telling of the wait raises, and the release grants to nobody |
| DirectoryProofs.NextInLine | src/wright/application/execution/directory.py:180-187 | the first of a queue is never cancelled, so a release skips nobody |
| DirectoryCoordinator.Coordinator.Acquire | src/wright/application/execution/directory.py:91-120 | the locked part of acquire: a caller whose parent holds the directory gets a lease under that parent at once, whoever queues; any other gets one exactly when nobody holds or queues, is refused exactly when it would have to wait with its cancel flag set, and else queues last |
| DirectoryProofs.WhoGetsIn | src/wright/application/execution/directory.py:103-120 | the same of the machine, case by case |
| DirectoryProofs.WhoIsNext | src/wright/application/execution/directory.py:163-195 | after a release the first waiter gets the directory exactly when nobody holds it any more; the others keep their places |
| DirectoryProofs.WhoIsCancelled | src/wright/application/execution/directory.py:197-222 | a waiter leaves exactly when its session and, if given, its holder are those named; those of others stay in their order |
| DirectoryCoordinator.Coordinator.TellQueued | src/wright/application/execution/directory.py:121-122 | a callback that raises takes the caller out and leaves its waiter in the queue |
| DirectoryCoordinator.Coordinator.Retain | src/wright/application/execution/directory.py:139-161 | retaining adds a lease of the parent's family, or raises and changes nothing |
| DirectoryCoordinator.Coordinator.Release | src/wright/application/execution/directory.py:163-195 | the last lease out hands the directory to the first waiter; the per-root maps stay the disjoint split of the id map |
| DirectoryCoordinator.Coordinator.Wake | src/wright/application/execution/directory.py:127-137 | what a woken caller returns or gives back |
| DirectoryCoordinator.Coordinator.DropWaiter | src/wright/application/execution/directory.py:262-272 | a cancelled poller leaves its queue without a look at its lease |
| DirectoryCoordinator.Coordinator.CancelWaiters | src/wright/application/execution/directory.py:197-222 | the matching queued waiters, and no others, are marked and taken out, and counted; the order of the rest stays |
| DirectoryCoordinator.Coordinator.GrantLocked | src/wright/application/execution/directory.py:294-316 | a grant enters both indexes under a fresh id |
| Handshake.AnnouncedOnce | src/wright/application/command/execution.py:428-438 | in every interleaving the end of a published command is announced exactly once, except when retaining raises after the publisher had claimed it; an unpublished one never |
| Handshake.HandedBackOnce | src/wright/application/command/execution.py:405-426 | a retained lease is released at most once, and in the end exactly when a coordinator is attached and one thread took the entry out; that fails exactly if the reader found none and the command was forgotten before the publisher looked |
| Handshake.HandedBackExactly | src/wright/application/command/execution.py:405-426 | read off the schedule: it is released exactly when a coordinator is attached and it was stored before the reader looked, or close() did not come before the publisher looked |
| Handshake.NotBeforeTheEnd | src/wright/application/command/execution.py:405-438 | in every interleaving a lease is released only once the command has ended, and only the end of a published one is announced |
| Handshake.AnnouncedExactly | src/wright/application/command/execution.py:428-438 | read off the schedule: the end is announced unless the reader was done first and retaining raises |
| Handshake.CleanHandBack | src/wright/application/command/execution.py:400-426 | with a coordinator attached and no close(), every retained lease is released and no entry remains |
| Handshake.ForgottenLease | src/wright/application/command/execution.py:378-398 | an interleaving with close() that leaks the lease |
| Handshake.UnattachedLease | src/wright/application/command/execution.py:405-426 | without an attached coordinator a lease is retained and never released |
| Handshake.LostAnnouncement | src/wright/application/command/execution.py:428-438 | an interleaving where retaining raises and nobody announces |
| Handshake.Command.RetainBackground | src/wright/application/command/execution.py:405-420 | retain, store, then look whether the reader has been and gone; before the command has ended the lease is not given back |
| Handshake.Command.MarkBackground | src/wright/application/command/execution.py:428-435 | the publisher's locked section |
| Handshake.Command.Read | src/wright/application/command/execution.py:480-489 | the reader's steps after the group has ended |
| Handshake.Command.Play | src/wright/application/command/execution.py:400-489 | the threads' fields follow the machine along any schedule |
| AgentLoop.ParseTurn | src/wright/application/agent/parse.py:27-80 | a reply is carried out exactly when it finished, every call is well formed, ids are distinct and there is something to do; otherwise it aborts |
| AgentLoop.UnusableExactly | src/wright/application/agent/parse.py:27-80 | (def.) what makes a reply unusable |
| AgentLoop.Session.RecordAssistantTurn | src/wright/domain/model/session/session.py:360-430 | raises without a trace exactly when an id is not new; otherwise appends the message and opens its calls |
| AgentLoop.Session.RecordToolExecution | src/wright/domain/model/session/session.py:456-476 | settles a known call and raises for an unknown one |
| AgentLoop.Session.Reopen | src/wright/domain/model/session/run.py:44-46 | a rejected completion is running again and no longer committed |
| AgentLoop.PairedAppend | src/wright/application/agent/turns.py:163-216 | behind a well-formed transcript a block keeps it well formed exactly when it is so itself |
| AgentLoop.NewCalls | src/wright/application/agent/turns.py:163-188 | between a request for tools and the replies the transcript has a gap and a pending call |
| AgentLoop.CallsAnswered | src/wright/application/agent/turns.py:203-216 | one reply per call, in order, closes it, with all ids still distinct |
| AgentLoop.StepWithinBudgets | src/wright/application/agent/turns.py:26-30 | a step that keeps its counter within the limit keeps the whole history within it |
| AgentLoop.Agent.HandleFinalTurn | src/wright/application/agent/turns.py:53-152 | done means completed, approved by the verifier and then not denied by the stop hook; a final turn is answered exactly when nothing raises and it is so accepted; retry means live with all counters below their limits |
| AgentLoop.Agent.Conclude | src/wright/application/agent/turns.py:85-152 | verifier and stop hook in turn: no exception is swallowed, and how many calls out of the loop each end takes |
| AgentLoop.Agent.Verify | src/wright/application/agent/turns.py:85-114 | rejections count up to the limit and end the run there; approval resets them |
| AgentLoop.Agent.Complete | src/wright/application/agent/turns.py:116-152 | the run is committed before the stop hook is asked, and taken back if it denies |
| AgentLoop.Agent.HandleToolCallsTurn | src/wright/application/agent/turns.py:155-229 | a turn that returns, carried out, cancelled or of unknown outcome, leaves the transcript well formed; a gap is left exactly when one of the calls before the replies raises; it returns exactly when none of its calls does |
| AgentLoop.Agent.CarryOut | src/wright/application/agent/turns.py:170-229 | the same from the first call behind the request on, which is where it depends on cancellation |
| AgentLoop.Agent.Dispatch | src/wright/application/agent/turns.py:196-229 | the gap stays exactly when the checkpoint raises or the dispatcher crashes; an unknown outcome ends the run |
| AgentLoop.Agent.HandleInvalidTurn | src/wright/application/agent/turns.py:232-283 | invalid turns in a row count up to the limit and end the run there |
| AgentLoop.Agent.StopIfCancelled | src/wright/application/agent/runner.py:456-467 | stops exactly when cancelled, and then the status is terminal |
| AgentLoop.Agent.Terminate | src/wright/application/agent/runner.py:758-779 | ends a live run as failed and never reopens a finished one |
| AgentLoop.Agent.Route | src/wright/application/agent/runner.py:953-993 | a turn is invalid exactly when its reply cannot be carried out, reuses an id or names a tool that was not offered; an answer is returned exactly when the turn is an accepted final one |
| AgentLoop.Agent.KeepShown | src/wright/application/agent/runner.py:936-952 | what was shown of a cancelled reply is kept, and the run is terminal exactly when it was cancelled |
| AgentLoop.Agent.Step | src/wright/application/agent/runner.py:918-993 | one pass makes at most one request, none once cancelled, and either goes on with everything in order or ends the run |
| AgentLoop.Agent.RunLoop | src/wright/application/agent/runner.py:890-1000 | at most max_steps requests, each made before cancellation and carrying a well-formed continuation with distinct ids, well formed as a whole if the run began so; on exit the status is terminal except after a stray cancelled reply, the transcript has a gap exactly when the last request asked for tools and that was interrupted, budgets were kept throughout, and an answer is returned exactly when the last turn was accepted: completed, approved, not denied and the last message; the run is cancelled only when somebody cancelled, and completed without an answer only by an exception behind its commit; fewer than max_steps requests only after an accepted or ending turn, a cancellation, an exception or a stray reply |
| AgentLoop.CrashLeavesAGap | src/wright/application/agent/turns.py:199-204 | an environment in which a run ends with a gap |
| AgentLoop.StrayReplyLeavesTheRunLive | src/wright/application/agent/runner.py:936-952 | a provider that says cancelled by itself leaves the run live |
| SessionRecovery.RecoveryRestoresExactly | src/wright/infrastructure/persistence/session/recovery.py:14-53 | recovery makes a transcript well formed exactly when only last replies of turns are missing; it adds replies only, keeps all ids and doing it twice is doing it once |
| SessionRecovery.EveryCallAnswered | src/wright/infrastructure/persistence/session/recovery.py:14-53 | in any transcript a call without a reply gets one, and no other reply is added or taken away |
| SessionRecovery.WhereRepliesGo | src/wright/infrastructure/persistence/session/recovery.py:38-53 | they come behind the replies the turn has, in the order of its calls |
| SessionRecovery.RunsStayRecoverable | src/wright/application/agent/runner.py:890-909 | whatever way a run ends, the session it leaves can be recovered if the one it began with could |
| SessionRecovery.RecoverInterrupted | src/wright/infrastructure/persistence/session/recovery.py:14-53 | the loop over the turns puts every missing reply in its place and settles its execution |
| SessionRecovery.Position | src/wright/infrastructure/persistence/session/recovery.py:38-45 | the place is behind the turn's message and the replies it has |
| Context.FoldOld | src/wright/application/agent/context.py:145-200 | the loops compute the folding and report the folded ids in order |
| Context.LatestInstructions | src/wright/application/agent/context.py:150-157 | the protected entries are those whose slot no later entry has |
| Context.FoldingKeepsStructure | src/wright/application/agent/context.py:160-200 | (def.) folding keeps length, ids, sources, roles, calls, parts and instruction keys, costs no tokens, and changes exactly the foldable entries, each to the stub of its message |
| Context.FoldedExactly | src/wright/application/agent/context.py:145-200 | which entries are folded, and what is left of each: status and error, a note and the key of the instruction |
| Context.TokensAre | src/wright/utils/token_counter.py:11-57 | (def.) the estimate adds up over the messages, with a token for every four characters and 1024 for an image |
| Context.FoldingSpares | src/wright/application/agent/context.py:145-162 | (def.) non-tool messages, the most recent tool results and protected instructions stay |
| Context.LatestIsProtected | src/wright/application/agent/context.py:150-157 | the latest copy of a keyed instruction is protected, except from a later keyless one whose made-up key is the same |
| Context.FoldingIsIdempotent | src/wright/application/agent/context.py:160-200 | a second pass changes nothing |
| Context.FoldingSaves | src/wright/utils/token_counter.py:35-52 | the token estimate never rises |
| Context.FoldedIdsAreChanged | src/wright/application/agent/context.py:196-200 | an id is reported exactly when a record with that id was changed |
| Context.SystemPromptComesFirst | src/wright/application/agent/context.py:289-308 | (def.) the first system message is the prompt of this request, and no other entry is touched |
| Context.OncePerCrossing | src/wright/application/agent/context.py:130-143 | however requests interleave, two announcements have the end of a crossing between them |
| Context.AnnouncesExactly | src/wright/application/agent/context.py:117-218 | a projection that has folded something announces it exactly when the conversation is still its own and nothing was announced since the last crossing was over |
| Context.Compactor.Project | src/wright/application/agent/context.py:117-218 | folds exactly above the watermark; below it resets the announcement |
| Context.Compactor.LeaveSection | src/wright/application/agent/context.py:202-217 | announces once, with the count, if the conversation is still the same |
| Context.Builder.Build | src/wright/application/agent/context.py:236-272 | the request sent is the one with its optional reminders unless that is over budget; its estimate and the ids of folded records are of that request |
| Context.RequestShape | src/wright/application/agent/context.py:287-312 | a request is the replayed records in order, with the system prompt, then the required reminders, then the optional ones |
| Context.ReserveIs | src/wright/application/agent/context.py:324-326 | (def.) the room kept for the answer is what was asked for, else the larger of 256 and an eighth of the limit |
| Context.DroppingIsHarmless | src/wright/application/agent/context.py:247-272 | with a watermark of at most 1 the request sent is over budget exactly when it would be without optional reminders |
| Context.WatermarkAboveOneBreaksIt | src/wright/application/agent/context.py:138-143 | with any larger watermark there is a request for which this fails |
| Guard.CommitsTripGuardOnlyByReadOnly | src/wright/application/permission/service.py:255-297 | a run of commits trips an issued guard exactly when one of them grants a directory for reading only |
| Guard.RootsHold | src/wright/application/permission/service.py:278-281 | the read-only roots are exactly those of directories granted for reading only |
| Guard.RevokingTripsForGood | src/wright/application/permission/service.py:230-253 | revoking a rule a guard depends on trips it, whatever is granted afterwards |
| Guard.RevokeTripsExactly | src/wright/application/permission/service.py:278-295 | a revocation trips a passing guard exactly when it takes away something the guard depends on or changes the read-only roots |
| Guard.GuardExactly | src/wright/application/permission/service.py:255-297 | after any mixture of operations a guard passes exactly when restrictions and read-only roots are as they were and nothing it depends on has been revoked |
| Guard.VersionsNeverReturn | src/wright/application/permission/service.py:175-192 | a version that a grant or revocation has left behind never comes back |
| Guard.VersionTells | src/wright/application/permission/service.py:170-192 | states of one version have the same restrictions, rules in force and read-only roots |
| Guard.PermissionService.Commit | src/wright/application/permission/service.py:202-228 | unreadable, conflict, rolled back, not told, died or done, each exactly when; the grant is in force exactly when the unit's record reached the disk, and after a rollback memory differs from the files exactly then, if session rules changed |
| Guard.CommitGrants | src/wright/application/permission/service.py:202-223 | a commit puts in force what there was and one rule under a fresh id for each grant, with its lifetime |
| Guard.RevokeTakes | src/wright/application/permission/service.py:230-253 | a revocation takes away the rule of that id and lifetime unless it is inherited, and nothing else |
| Guard.HowCommitEnds | src/wright/application/permission/service.py:202-228 | (def.) which failures undo a grant, and how many files the journal writes for it |
| Guard.NothingInTheWay | src/wright/application/permission/service.py:202-253 | when nothing fails a grant and a revocation are done and in force |
| Guard.GrantedAllTheSame | src/wright/application/permission/service.py:208-227 | which failing disk steps make a grant raise that is nevertheless in force |
| Guard.RevokedAllTheSame | src/wright/application/permission/service.py:236-252 | the same for a revocation |
| Guard.GrantOutlivesRollback | src/wright/application/permission/service.py:224-227 | a grant whose COMMITTED record is written but raises: memory is rolled back, the files hold it |
| Guard.PermissionService.Revoke | src/wright/application/permission/service.py:230-253 | likewise, and not found exactly when the rule is not there |
| Guard.PermissionService.Validate | src/wright/application/permission/service.py:260-297 | the check an issued guard makes |
| Guard.PermissionService.Authorize | src/wright/application/permission/service.py:312-359 | a permit is issued exactly when the version approved is still current and the commit is done; its guard starts from the permissions at that moment; without a permit either nothing was granted or the record of the grant had reached the disk |
| ReducerProofs.DeliveryRefines | web/src/reducer.ts:156-176 | for a delivery without a gap, with any repetitions, late and foreign events, the view is that of applying the delivered prefix once |
| ReducerProofs.ResyncExactly | web/src/reducer.ts:157-166 | (def.) a new snapshot is asked for exactly for another version or stream, a gap or a malformed status, and nothing else changes |
| ReducerProofs.ResyncAbsorbs | web/src/reducer.ts:157 | until then every event is ignored |
| ReducerProofs.StaysTidy | web/src/reducer.ts:41-52 | queue depth is queue length, command ids, tool calls and subagents are not repeated, and the two memories stay within their limits |
| ReducerProofs.QueueStaysOk | web/src/reducer.ts:279-306 | no event makes the queue depth differ from the queue or repeats a command |
| ReducerProofs.QueueHolds | web/src/reducer.ts:279-306 | a command is queued exactly when it was and has not been taken out, or has just been accepted under an id of its own |
| ReducerProofs.ToolOutputStep | web/src/reducer.ts:61-78 | an event's output goes behind what its own call has put out, and nowhere else |
| ReducerProofs.AgentTextStep | web/src/reducer.ts:98-124 | a subagent's text is that of its own deltas and finals |
| ReducerProofs.CursorMovesExactly | web/src/reducer.ts:149-154 | (def.) the cursor moves on exactly at the beginning of a model step, and only from a segment that has some text |
| ReducerProofs.TextStep | web/src/reducer.ts:135-147 | an event changes the text of the segment it is aimed at and no other's |
| ReducerProofs.TextConserved | web/src/reducer.ts:203-216 | each segment's text is the fold of exactly the deltas and finals that arrived while it was current |
| ReducerProofs.CursorHolds | web/src/reducer.ts:149-154 | with fresh turn ids the text shown for the turn in progress is that of its current segment |
| ReducerProofs.StartNeedsFreshTurn | web/src/reducer.ts:182-198 | for that a turn may start exactly when its segments are still empty |
| ReducerProofs.EarlierSegmentsStay | web/src/reducer.ts:149-154 | no later event changes a segment the cursor has left |
| ReducerProofs.AnswerKept | web/src/reducer.ts:225-244 | the history gets the text of the last segment, and a completed turn has it on the timeline |
| ReducerSteps.CountsExactly | web/src/reducer.ts:156-176 | an event counts exactly when it is the next of its session and stream, unseen and well formed; otherwise at most the call for a new snapshot changes |
| ReducerSteps.SeenAreNewest | web/src/reducer.ts:167 | the ids remembered are the newest 2000 of those that counted |
| ReducerSteps.NoticesAreNewest | web/src/reducer.ts:41-52 | the notices shown are the newest 50 raised since the last turn started |
| ReducerSteps.SubagentsApart | web/src/reducer.ts:98-124 | an event of a subagent changes the subagents alone, any other leaves them |
| ReducerSteps.SubagentStep | web/src/reducer.ts:98-124 | a subagent keeps its place and depth, is finished once its final text came, and has the tool calls of its own events |
| ReducerSteps.TurnComesAndGoes | web/src/reducer.ts:182-224 | a turn is active from its start to its end and keeps id, run and prompt; which event changes which of its texts |
| ReducerSteps.NextSegment | web/src/reducer.ts:149-154 | when a new model step empties the texts and moves the cursor |
| ReducerSteps.ToolStepExactly | web/src/reducer.ts:61-78 | the first call with the id is updated or one is added last; output leaves the phase alone and every other event sets it |
| ReducerSteps.QueueOrder | web/src/reducer.ts:279-306 | an accepted command goes last, and which event takes which command out |
| ReducerSteps.UnqueueInOrder | web/src/reducer.ts:200-202 | taking a command out leaves the others in their order |
| ReducerSteps.HistoryStep | web/src/reducer.ts:225-239 | an ended turn leaves one entry, with its prompt and its text or what became of it; nothing else touches the history |
| ReducerSteps.SegmentItem | web/src/reducer.ts:135-147 | which item a piece of text or reasoning goes into, and what it then holds |
| ReducerSteps.ToolOnTimeline | web/src/reducer.ts:341-358 | a tool event updates its call's own item, whether or not a turn is in progress |
| ReducerSteps.TimelineStep | web/src/reducer.ts:182-368 | what every other event puts at the end of the timeline or takes out; the rest stays in order |
| Recall.FitPrefix | src/wright/application/memory/projection.py:200-239 | the binary search returns the whole text, else the longest marked prefix that fits, else nothing |
| Recall.BestIsLongest | src/wright/application/memory/projection.py:200-239 | a longer cut costs at least as much, so the best cut is the longest that fits |
| Recall.RenderForBudget | src/wright/application/memory/projection.py:124-175 | an episode is rendered as Rendering says: trace first, then outcome, then everything but verification give way |
| Recall.RenderingFits | src/wright/application/memory/projection.py:124-175 | a rendering fits and begins with header and longest fitting goal; there is none exactly when not even that fits; and nothing is cut when everything fits |
| Recall.WhatGivesWay | src/wright/application/memory/projection.py:143-175 | the trace is dropped exactly when the text with it does not fit, the outcome cut exactly when the text without the trace does not either, each to the longest cut that fits |
| Recall.FullTextIs | src/wright/application/memory/projection.py:124-160 | (def.) the whole text of an episode, line by line |
| Recall.PassKeepsAll | src/wright/application/memory/episode_ops.py:141-150 | the first pass takes or passes over every episode and keeps their order |
| Recall.PassStep | src/wright/application/memory/episode_ops.py:141-150 | an episode is taken exactly when it renders within the limit for the tokens left by the texts so far and the policy accepts its cost |
| Recall.RenderEpisodes | src/wright/application/memory/episode_ops.py:129-165 | rendered and skipped episodes are those asked for, each once and in order; of what the first pass took the longest start that keeps to the budget is left, so the text costs at most the budget for any policy |
| Recall.CandidateSummary | src/wright/application/memory/projection.py:40-78 | the loop over the fields makes the line that Summary describes: each field gets its share of the room, and the first without room ends the line |
| Recall.SummaryStartsWithHeader | src/wright/application/memory/projection.py:48-51 | a selector line begins with id and status as far as its budget goes |
| Recall.SummaryShowsFields | src/wright/application/memory/projection.py:60-78 | it shows, in order, exactly the fields that say something, each with its share or the room left, up to the first with less than 8 characters of room, which ends it |
| Recall.PresentIs | src/wright/application/memory/projection.py:48-60 | (def.) the fields of a line: of these five, in order, those that say something |
| Recall.FieldIs | src/wright/application/memory/projection.py:63-69 | (def.) the share of a field, and how it is cut to it |
| Recall.HeadTailKeeps | src/wright/application/memory/projection.py:110-121 | a long outcome keeps equal parts of both ends that fill the budget |
| Recall.BudgetEpisodeManifest | src/wright/application/memory/projection.py:81-107 | the kept lines are the longest start of the ranking that fits and cost at most the budget, except that a first line may take ten tokens; the rest is reported as dropped |
| Recall.LineIs | src/wright/application/memory/projection.py:93-98 | (def.) the room for a line: what is left, between 40 and 700 characters |
| Recall.KeepIndex | src/wright/application/memory/semantic_ops.py:455-475 | the longest start of the index lines that fits is kept, and a notice exactly when some are left out and it fits |
| Recall.KeepBlocks | src/wright/application/memory/semantic_ops.py:477-493 | the longest start of the memories that fits is kept, and a hint for the next one exactly when it fits |
| Recall.RenderSemantic | src/wright/application/memory/semantic_ops.py:425-495 | the text is made of the index lines and memories that fit, with notice and hint exactly when they fit; it keeps to its budget exactly when the index header does, and otherwise is that header, at most 5 tokens over |
| Recall.HeaderOverrun | src/wright/application/memory/semantic_ops.py:452-477 | whatever surrounds the memories, with the budget that this just fits the text costs 4 or 5 tokens too many |
| Splitter.SplitThenJoin | src/wright/utils/text_splitter.py:39 | the parts joined by the separator are the text |
| Splitter.IndexIsFirst | src/wright/utils/text_splitter.py:39 | a part ends at the first separator |
| Splitter.Windows | src/wright/utils/text_splitter.py:32-37 | windows are non-empty and at most the size, and leave nothing out exactly when the overlap is not negative or one window suffices |
| Splitter.WindowAt | src/wright/utils/text_splitter.py:32-37 | the k-th window begins k steps of size less overlap into the text, and there are no others |
| Splitter.SplitRecursive | src/wright/utils/text_splitter.py:25-48 | pieces are non-empty slices in order, within the size if the empty separator is there, and leave out separators only |
| Splitter.PiecesAre | src/wright/utils/text_splitter.py:25-48 | (def.) what fits is left whole, the empty separator cuts windows, any other its parts |
| Splitter.PiecesInOrder | src/wright/utils/text_splitter.py:39-48 | the pieces of parts are those of each, in order |
| Splitter.PiecesAreShort | src/wright/utils/text_splitter.py:25-48 | with the empty separator no piece is empty or longer than the size |
| Splitter.Tail | src/wright/utils/text_splitter.py:61-71 | the loop carries over the longest tail within the overlap |
| Splitter.TailStartIs | src/wright/utils/text_splitter.py:61-71 | only one tail is the longest |
| Splitter.Merge | src/wright/utils/text_splitter.py:50-77 | the loop makes the chunks of MergeFrom |
| Splitter.MergeIsGreedy | src/wright/utils/text_splitter.py:50-77 | these are runs of consecutive items that miss none, are closed exactly when the next item does not fit, overlap in the longest tail within the overlap, and have at most size plus overlap characters of items |
| Splitter.SplitText | src/wright/utils/text_splitter.py:6-79 | the errors, the short text, and for the rest the chunks made from the text as above, none longer than the longest chunk can be |
| Splitter.LongestChunkExactly | src/wright/utils/text_splitter.py:6-79 | with the empty separator but not first, every chunk of every text keeps to a bound exactly when max(size + 2 * overlap, 2 * size - 3) does |
| Splitter.SizeKeptExactly | src/wright/utils/text_splitter.py:6-79 | every chunk of every text is at most as long as was asked for exactly when nothing overlaps and the size is at most 3, or text is only cut into windows and the overlap is less than two thirds of the size |
| Splitter.ReachesLongest | src/wright/utils/text_splitter.py:50-77 | a text that has a chunk as long as a chunk can get |
| Splitter.NoBoundWithoutWindows | src/wright/utils/text_splitter.py:25-27 | without the empty separator a text of any length may be one chunk |
| Splitter.ChunkLongerThanSize | src/wright/utils/text_splitter.py:58-60 | for every size and overlap beyond that, a text whose split with the default separators has a chunk longer than the size |

## Left out

- Journal: temporary files, fsync, file locks, checksums, base64 and the canonical form of paths; a log that does not parse is one value, Damaged, and stops recovery as in the code.
- Directory: the index of waiters by session and holder, which only serves the texts of `waiting_reason`; normalisation of paths. Lease ids are numbers instead of random strings.
- Handshake: the reading of output, the record of the command and the applying of the working directory; one command at a time, since tables are keyed by command.
- AgentLoop: texts of feedback and messages, usage accounting, deferred tools, memory, the change of a tool's wire name, and BaseException other than Exception. The dispatcher is taken to return one outcome per call in order, and every tool result to be JSON, since one that is not would raise in `build_tool_results_messages` (turns.py:191 and 213) after its execution is settled and leave a gap without a pending call.
- AgentLoop.Agent.RunLoop: does not model time between a check for cancellation and the request behind it, because moments are told apart by calls out of the loop.
- SessionRecovery: the texts of the results that are filled in, and `active_turn_start_message_index`. Turns and messages are taken as linked, which loading checks before.
- Context: parsing of JSON; a text is its length and what the projection looks at. The reason given for an exceeded budget, and the filter for recall and skill catalogs, which is a flag of the record.
- Context.Compactor.Project: runs its two critical sections without a gap; gaps between sections of different requests are in Context.OncePerCrossing.
- Guard: reading the permissions that raises half-way, and the reads and writes themselves: its fields stand for the files, which follow the journal's record as in JournalStore.Store.UnitOfWork; matching of rules, access scopes other than read-only roots, rules without an id, and the cache of snapshots. A version is the state it is computed from.
- Guard.RevokingTripsForGood: does not model files edited by hand, which could bring a revoked rule back.
- Reducer: plan, usage, session status, policy revision, open interactions and attachments, which no property is about; texts of notices. Ids on the timeline are structured values, so ids of different kinds cannot coincide as strings could.
- Recall: the flattening of white space, and how tool traces and fact lines are worded; negative character budgets; `budget_semantic_manifest` and the ranking of candidates.
- React components, the HTTP client, command line and terminal interfaces, MCP, web probes, worktrees, process spawning, the SQLite stores and the schedulers are not part of this model.
