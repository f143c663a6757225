# ProseForge agent runs, verified

A Dafny model of how ProseForge executes agent runs, and proofs of what its code
keeps. `dafny verify dfyconfig.toml` checks the whole project.

## What is modelled

**The durable run protocol.** A run is a row, its task rows, its artifacts and an
append-only event log (`RunModel`). `Executor` says what each transaction of
`execute_run` does to them; `RunStore` and `AgentExecutor` do it in place, with the
loops of the source, and are proved to do the same. `Control` holds the endpoints,
`Protocol` interleaves everything as a transition system: any number of executors,
deliveries and redeliveries, crashes, the control endpoints, graph expansion, the
prober, the sweeper and the clock. Every `async with` unit of work is one step; an
enqueue that follows a commit is a step of its own and may fail; the provider build
is separate from the claim it follows. Two executors that are alive at the same time
have distinct ids. `Effects` classifies what each step does to the books;
`Fencing`, `Leases`, `Ledger`, `EventFeed`, `RunStates`, `ReviseRounds`, `Deadlock` and
`AutoPause` prove facts about every reachable state. `Progress` and `AgentExecutor.ExecuteRun` are
about one call with the rows to itself, `Closure` and `SoloRun` about its gates.
`ForeignLease`, `PauseAgain` and `Reopened` are concrete executions, put together from
the pieces in `Walks`.

**Graph expansion** (`TaskGraph`, `ExpandGraph`), **the batch chapter chain**
(`BatchKey`, `BatchChain`, `BatchSafety`, `BatchStore`), **the rate limiter**
(`RateLimiter`), **the context compiler** (`ContextCompiler`), **the quality gate** (`ClueCover`,
`Repetition`, `QualityGate`), **memory slices and their cache** (`MemorySlice`,
`MemoryCache`) and **the promise ledger** (`PromiseLedger`) are modelled beside it.

Handler results, gate verdicts in the protocol, clock readings, credentials, lane
totals and the number of audit entries are arbitrary inputs. Times are whole
milliseconds in the protocol and real seconds in the limiter and the cache.

## Where the code differs from what it says

- The streak behind the automatic pause is documented to restart after a resume; it
  counts the whole log, so it does not (`AutoPause.ResumeKeepsStreak`). A run pauses
  exactly when the two settled claims before a retryable failure failed the same way
  (`AutoPause.PausesExactly`), also right after a resume (`PauseAgain.PausesAgain`).
- COMPLETED and CANCELLED are meant to be final; three compensations that do not look
  at the status overturn them (`RunStates.LeavesTerminalExactly`), as in
  `RunStates.CancelledCanBeLeft` and `ForeignLease.CompletedWithForeignTask`. They are
  final exactly when no such compensation is possible any more
  (`RunStates.TerminalFinalExactly`).
- COMPLETED looks only at PENDING and FAILED rows, so a row somebody else holds may
  still be RUNNING (`ForeignLease.CompletedWithForeignTask`). All rows are done exactly
  when no row was held under an unexpired lease (`RunStates.CompletedExactly`).
- The gates and the revise rounds are meant to count per run; they are counted per call.
  A run is re-opened at most once for each delivery
  (`ReviseRounds.ResetsWithinDeliveries`), which can be more than the limit, and a later
  call can re-open rewrite and recheck behind a row that is done
  (`Reopened.ReopenedBehindDone`); `Closure.ReopensExactly` says when it does not.
- A batch is meant to end once; the enqueue of a chapter can fail after the batch ended
  and stalls it again (`BatchSafety.EndsTwice`). An end is the last entry exactly when no
  chapter waits for its enqueue (`BatchSafety.EndIsLastExactly`).
- The depth limit of expansions is checked for the parent only; a child with explicit
  dependencies can exceed it (`ExpandGraph.ExplicitDependencyBreaksDepthLimit`, with
  the exact condition in `ExpandGraph.ChildDepthLimit`).
- A decision on memories is documented to be seen at once, because the cache is emptied
  after the commit. Both writers empty it before they commit, so a load between the two,
  or one still in flight, can store the slice from before
  (`MemoryCache.StaleAfterCommit`). The commit is seen at once exactly when no cached
  slice and no answer in flight that is younger than two seconds differs from the new
  rows (`MemoryCache.CommitShowsExactly`), for one when no load is in flight at the
  invalidation and none begins until the commit (`MemoryCache.QuietCommitShows`).

## Model

| member | source | states |
|---|---|---|
| RunModel.AddEvent | proseforge/workflows/agent_executor.py:377-385 | one more event, numbered cursor + 1; numbering 1..cursor is kept and every counted total moves by exactly this event |
| RunStore.RunRow.Append | proseforge/api/routes/agent_runs.py:135-147 | the in-place writer appends exactly that event |
| RunStore.RunRow.Release | proseforge/workflows/agent_executor.py:822-826 | gives back exactly the listed rows |
| EventFeed.EventsNumbered | proseforge/workflows/agent_executor.py:377-385 | in every reachable state, under every interleaving of the writers, events are numbered 1..event_cursor without a gap |
| EventFeed.PollingReceivesTheLog | proseforge/api/routes/agent_runs.py:348-354 | a client that starts at 0 and polls with the returned cursors while events are appended has received the whole log, each event once and in order |
| Executor.ReadyFrom | proseforge/workflows/agent_executor.py:780-792 | the ready list holds exactly the PENDING rows that are not waiting and whose dependencies are all SUCCEEDED or SKIPPED, in row order |
| Executor.RecoverFrom | proseforge/workflows/agent_executor.py:750-759 | recovery changes exactly the RUNNING rows without a live lease, to PENDING without a lease |
| Executor.SkippedExactly | proseforge/workflows/agent_executor.py:636-641 | skipping turns exactly the PENDING rows of the listed keys to SKIPPED |
| AgentExecutor.AgentExecutor.RecoverExpired | proseforge/workflows/agent_executor.py:750-759 | takes back exactly the RUNNING rows without a live lease, with one task.recovered each, and says whether there was one |
| AgentExecutor.AgentExecutor.EvaluateGate | proseforge/workflows/agent_executor.py:595-643 | the first gate: evaluated at most once and only with merge PENDING behind finished reviews; a pass skips the pending revise stage |
| AgentExecutor.AgentExecutor.SkipPending | proseforge/workflows/agent_executor.py:636-641 | the skipping loop over the stage keys, in place |
| AgentExecutor.AgentExecutor.EvaluateFinalGate | proseforge/workflows/agent_executor.py:645-706 | the final gate: a failed verdict re-opens rewrite and recheck until the round limit, then marks the draft |
| AgentExecutor.AgentExecutor.HasArtifact | proseforge/workflows/agent_executor.py:669-682 | whether some artifact of the run belongs to that row |
| AgentExecutor.AgentExecutor.FindReady | proseforge/workflows/agent_executor.py:792 | the scan for ready rows, in place |
| AgentExecutor.AgentExecutor.ClaimReady | proseforge/workflows/agent_executor.py:812-856 | claims ready rows in order up to the cap; a row over the run budget fails, gives the batch back and exhausts the run |
| AgentExecutor.AgentExecutor.PrepareBatch | proseforge/workflows/agent_executor.py:872-958 | missing credentials give the batch back and fail the run; otherwise the lane ledger is built once and only ever raises the limit |
| AgentExecutor.AgentExecutor.ScanTasks | proseforge/workflows/agent_executor.py:764-811 | completion, failure, sleeping, giving up or claiming, in the order of the code, including the path that leaves without a commit |
| AgentExecutor.AgentExecutor.Iterate | proseforge/workflows/agent_executor.py:715-811 | one pass from the status checks to the claim batch, in place, equals the transaction that the system model interleaves |
| AgentExecutor.AgentExecutor.FailureStreak | proseforge/workflows/agent_executor.py:392-409 | the loop over the newest 50 settle entries returns the trailing run of retryable failures, capped at 50 |
| AgentExecutor.AgentExecutor.RetryLater | proseforge/workflows/agent_executor.py:1060-1077 | counts a retryable failure, delays the row and pauses the run at a streak of three |
| Transactions.SettleEffect | proseforge/workflows/agent_executor.py:1078-1110 | a commit without the lease or outside RUNNING settles nothing; otherwise the claim is settled once, and SUCCEEDED with one artifact exactly for a success or a recheck out of retries |
| AgentExecutor.AgentExecutor.CommitTask | proseforge/workflows/agent_executor.py:1031-1155 | the commit transaction: lease fence, run status, then the outcome of each kind of result |
| AgentExecutor.AgentExecutor.AbandonBatch | proseforge/workflows/agent_executor.py:970-983 | gives back the claimed rows still RUNNING and fails the run whatever its status is |
| AgentExecutor.AgentExecutor.RunBatch | proseforge/workflows/agent_executor.py:985-1165 | settling the batch in any order with any results empties it and keeps the loop's bounds |
| AgentExecutor.AgentExecutor.RunIteration | proseforge/workflows/agent_executor.py:715-1165 | a pass that continues brings the loop closer to its end |
| AgentExecutor.AgentExecutor.ExecuteRun | proseforge/workflows/agent_executor.py:715-1165 | with the rows to itself and an advancing clock the loop ends with the run inactive, resets rewrite and recheck at most once, and claims a row with fresh counters at most eight times, plus one after a reset |
| Progress.ContinuingAdvances | proseforge/workflows/agent_executor.py:750-806 | an iteration that only continues uses up a revise round, work or waiting time |
| Progress.SleepHasReason | proseforge/workflows/agent_executor.py:780-806 | a scan that sleeps has a row whose retry is due later or whose lease is still running |
| Progress.WorkingHands | proseforge/workflows/agent_executor.py:812-856 | an iteration that hands out work claims at least one ready row and touches no other |
| Progress.SettlingShrinks | proseforge/workflows/agent_executor.py:1044-1117 | settling a claim leaves less work in its row than before the claim, and touches no other row |
| Progress.TickCounters | proseforge/workflows/agent_executor.py:645-706 | an iteration keeps the retry counters of every row within their bounds, with one more claim per reset |
| Progress.SettleCounters | proseforge/workflows/agent_executor.py:1044-1117 | so does every outcome of a claim: at most five retryable failures, at most two other ones before the deciding claim |
| Progress.ResetsAreCounted | proseforge/workflows/agent_executor.py:690-706 | an iteration writes gate.recheck_failed exactly when it counts one more revise round, as its last event, and never beyond the limit |
| Leases.HoldEndsExactly | proseforge/workflows/agent_executor.py:96-106 | before its lease is over a claim ends by exactly four steps: its own commit, a failed provider build of whoever has the row in its batch, a retry of that row, and a reset of rewrite |
| Leases.LeaseProtects | proseforge/workflows/agent_executor.py:1012-1020 | over any run, without those steps the holder keeps the row until its lease is over |
| Fencing.ResultsAreFenced | proseforge/workflows/agent_executor.py:1031-1043 | a result is accepted only from the executor that claimed that row at some earlier step, and no recovery, re-claim or reset of the row is in the log since |
| Fencing.SettledWithin | proseforge/workflows/agent_executor.py:835-856 | over any stretch of any run, claims settled never outnumber claims started plus the one that was live at its beginning |
| Fencing.SettlesNeverExceedStarts | proseforge/workflows/agent_executor.py:852-853 | per row, task.succeeded and task.failed together never exceed task.started |
| Fencing.SettledOncePerClaim | proseforge/workflows/agent_executor.py:1147-1159 | after a settled claim the row is settled again only if it was started again, also after a crash and redelivery |
| Fencing.AlwaysFenced | proseforge/workflows/agent_executor.py:1012-1043 | in every state, a claim that can still be committed has seen no fence event since it was made |
| Ledger.LedgersAgree | proseforge/workflows/agent_executor.py:449-459 | in every state budget_used is the sum of the task.usage totals and the sum of the six lane ledgers |
| Ledger.ArtifactsMatchSuccesses | proseforge/workflows/agent_executor.py:1127-1147 | per row there are exactly as many handler artifacts as task.succeeded events |
| Ledger.LimitNeverDecreases | proseforge/workflows/agent_executor.py:437-445 | budget_limit never decreases over any steps of any actor |
| Ledger.RetryMakesRoom | proseforge/api/routes/agent_runs.py:265-279 | after a retry out of BUDGET_EXHAUSTED no unit-budget row is refused, whatever else happens, until new usage is settled |
| RunStates.AlwaysAttended | proseforge/application/agents/auto_resume.py:121-149 | in every reachable state a PENDING or RUNNING run has a queued delivery, a live executor or an enqueue in flight |
| RunStates.ActiveRunCanProceed | proseforge/workflows/agent_executor.py:715-732 | and one of the system's own steps can happen next |
| RunStates.LeavesTerminalExactly | proseforge/api/routes/agent_runs.py:302-312 | COMPLETED and CANCELLED are left by exactly three compensations: failed enqueue of creation, failed enqueue of a control action, failed provider build |
| RunStates.TerminalFinalExactly | proseforge/api/routes/agent_runs.py:302-312 | a reachable COMPLETED or CANCELLED run keeps its status for good exactly when no provider is being built and no enqueue of creation or control is in flight |
| RunStates.CancelledCanBeLeft | proseforge/application/agents/create_run.py:217-226 | a reachable two-step run in which a cancelled run ends FAILED |
| RunStates.SuccessOnlyWhileRunning | proseforge/workflows/agent_executor.py:1031-1043 | a row becomes SUCCEEDED only in a commit of its lease holder, with the run RUNNING before and after |
| RunStates.ArtifactOnlyWhileRunning | proseforge/workflows/agent_executor.py:1127-1147 | the same holds for handler artifacts |
| RunStates.CompletedExactly | proseforge/workflows/agent_executor.py:764-779 | COMPLETED means that every row is SUCCEEDED or SKIPPED exactly when no row was RUNNING under an unexpired lease as the completing iteration began |
| ForeignLease.CompletedWithForeignTask | proseforge/workflows/agent_executor.py:764-779 | a reachable run that is COMPLETED while its only row is RUNNING elsewhere, and is then turned to FAILED |
| RunStates.InactiveStandsStill | proseforge/workflows/agent_executor.py:725-732 | while a run is paused, cancelled or ended no claim starts or settles and no token is spent, until somebody asks for a resume or a retry |
| RunStore.RunRow.Cancel | proseforge/api/routes/agent_runs.py:235-300 | cancels exactly from the five statuses the table lists, with one event |
| RunStates.ActivatedOnRequest | proseforge/api/routes/agent_runs.py:283-312 | an inactive run becomes active only by a granted resume, retry or probe, with an enqueue in flight whose failure would give the old status back |
| RunStore.RunRow.RetryFailedTasks | proseforge/api/routes/agent_runs.py:249-263 | the loop of a run-level retry re-opens exactly the FAILED rows with zero counters |
| RunStore.RunRow.Retry | proseforge/api/routes/agent_runs.py:236-279 | retries from FAILED, PAUSED or BUDGET_EXHAUSTED: counters of FAILED rows zeroed, or one row re-opened, and new budget room after exhaustion |
| AutoPause.StreakCountsTheTail | proseforge/workflows/agent_executor.py:392-409 | the streak reaches n exactly when the last n settled claims of the run were retryable provider failures |
| AutoPause.PausesExactly | proseforge/workflows/agent_executor.py:1060-1077 | a retryable failure pauses the run exactly when the two settled claims before it failed the same way |
| AutoPause.ResumeKeepsStreak | proseforge/workflows/agent_executor.py:392-409 | a resume does not start the count afresh: the next retryable failure pauses the run again |
| PauseAgain.PausesAgain | proseforge/workflows/agent_executor.py:392-409 | a reachable run that pauses itself, is resumed by a user, and is paused again by the next settled claim |
| Deadlock.AlwaysWellFormed | proseforge/application/agents/expand_graph.py:91-144 | in every reachable state the rows have unique keys, existing dependencies and no cycle, through any accepted expansions |
| Deadlock.NoFalseDeadlock | proseforge/workflows/agent_executor.py:792-811 | an iteration that gives up on dependencies leaves every PENDING row with a dependency path to a FAILED row |
| Deadlock.NoFalseDeadlockEver | proseforge/workflows/agent_executor.py:792-811 | the same in every reachable state of the whole system |
| Deadlock.RetryScansSafely | proseforge/api/routes/agent_runs.py:249-263 | the first scan after a run-level retry never gives up on dependencies |
| Closure.GateCloses | proseforge/workflows/agent_executor.py:595-643 | skipping the revise stage keeps everything done dependency-closed |
| Closure.FinalGateCloses | proseforge/workflows/agent_executor.py:690-706 | so does re-opening rewrite and recheck |
| Closure.ReopensExactly | proseforge/workflows/agent_executor.py:690-706 | re-opening them keeps everything done dependency-closed exactly when no other done row depends on either |
| ReviseRounds.ResetsWithinDeliveries | proseforge/workflows/agent_executor.py:690-706 | in every reachable state rewrite and recheck were re-opened at most once for each delivery so far |
| Reopened.ReopenedBehindDone | proseforge/workflows/agent_executor.py:357-371 | a reachable run of two calls, one after the other, that re-opens rewrite and recheck twice, the second time under a promise_verify that is done |
| Closure.SettleCloses | proseforge/workflows/agent_executor.py:1031-1155 | so does committing a result |
| SoloRun.DoneIsClosed | proseforge/workflows/agent_executor.py:595-706 | for one call on fresh rows, in every state whatever is SUCCEEDED or SKIPPED has all its dependencies SUCCEEDED or SKIPPED |
| SoloRun.PendingBehindRecheck | proseforge/workflows/agent_executor.py:661-706 | whenever the final gate can still reset, every row behind recheck is PENDING |
| SoloRun.WriteGraphFits | proseforge/application/agents/intent.py:163-191 | the 17-row write graph is acyclic, has the shape both gates need, and its rows draw on the ledgers of their stages |
| SoloRun.ReviseGraphFits | proseforge/application/agents/intent.py:198-203 | so has the revise graph |
| SoloRun.ReviewGraphFits | proseforge/application/agents/intent.py:192-197 | so has the review graph |
| SoloRun.AnalyzeGraphFits | proseforge/application/agents/intent.py:154-162 | so has the analyze graph |
| SoloRun.WriteRunIsClosed | proseforge/application/agents/intent.py:163-191 | hence the closure holds for every fresh call on the write graph |
| TaskGraph.DepthIsLongest | proseforge/application/agents/expand_graph.py:67-80 | a table that is 0 without dependencies and else one more than the deepest dependency holds longest-path lengths |
| ExpandGraph.DepthTable.Depth | proseforge/application/agents/expand_graph.py:71-78 | the memoised recursion ends on every graph; on an acyclic one it returns true depths and only memoises true depths |
| ExpandGraph.DepthTable.Deepest | proseforge/application/agents/expand_graph.py:76 | the maximum over the dependencies of a key is its depth |
| ExpandGraph.Depths | proseforge/application/agents/expand_graph.py:67-80 | on every acyclic graph each row gets the length of its longest dependency path |
| ExpandGraph.CheckRequest | proseforge/application/agents/expand_graph.py:100-108 | no violation exactly for a stated reason and dedupe key, both new, and at least one child |
| ExpandGraph.CheckChildren | proseforge/application/agents/expand_graph.py:111-129 | no violation exactly when every child has a known role, a positive budget, a fresh key, at most 8 dependencies and only existing ones |
| ExpandGraph.CheckParent | proseforge/application/agents/expand_graph.py:95-144 | no violation exactly for a succeeded parent of a known role within fan-out, role limit and depth |
| ExpandGraph.NewRows | proseforge/api/routes/agent_runs.py:536-544 | the inserted rows: key, role, dependencies and budget of each child, PENDING with zero counters |
| ExpandGraph.ValidateExpansion | proseforge/application/agents/expand_graph.py:91-144 | the violation list is empty exactly for the acceptable requests |
| TaskGraph.ExtensionWellFormed | proseforge/application/agents/expand_graph.py:116-129 | new rows with fresh keys that depend on old rows keep the graph acyclic, unique and closed |
| ExpandGraph.AcceptedExpansionKeepsGraph | proseforge/api/routes/agent_runs.py:536-544 | an accepted expansion keeps the graph well formed, within 64 nodes and within the remaining budget |
| ExpandGraph.DefaultChildrenStayWithinLimits | proseforge/application/agents/expand_graph.py:130-136 | children without explicit dependencies are exactly one deeper than the parent, within depth 8, and its fan-out stays within 8 |
| ExpandGraph.ChildDepthLimit | proseforge/application/agents/expand_graph.py:122-136 | with explicit dependencies a child stays within depth 8 exactly when the named rows are within depth 7 |
| ExpandGraph.ExplicitDependencyBreaksDepthLimit | proseforge/application/agents/expand_graph.py:135-136 | an accepted expansion whose child has depth 9 |
| Decimal.ParseRender | proseforge/application/agents/batch_dispatch.py:118-134 | a number rendered into a key parses back to itself |
| BatchKey.KeyRoundTrip | proseforge/application/agents/batch_dispatch.py:118-134 | the key of a chapter parses back to exactly its batch and chapter |
| BatchKey.KeysAreUnique | proseforge/application/agents/batch_dispatch.py:118-120 | two chapters share a key only if they are the same chapter of the same batch |
| BatchKey.ParsedKeyShape | proseforge/application/agents/batch_dispatch.py:123-134 | whatever parses starts with the batch prefix and names a batch id without a colon |
| BatchStore.NormalizeChapters | proseforge/application/agents/batch_dispatch.py:136-164 | every usable entry once, numbered by its own number or its position, sorted by number with ties in list order |
| BatchStore.BatchRow.LoadPlan | proseforge/application/agents/batch_dispatch.py:332-351 | the latest plan of the log, and whether the batch has ended |
| BatchStore.BatchRow.FindNext | proseforge/application/agents/batch_dispatch.py:553 | the loop for the next chapter |
| BatchStore.BatchRow.BatchSummary | proseforge/application/agents/batch_dispatch.py:502-511 | the four lists of the summary, in place |
| BatchStore.BatchRow.PlanBatch | proseforge/application/agents/batch_dispatch.py:398-475 | plans once, within 100 chapters and the user's limit, and dispatches the first one; an empty plan leaves nothing behind |
| BatchStore.BatchRow.PlanOutline | proseforge/application/agents/batch_dispatch.py:436-452 | the same from the chapters of the outline: planned are the numbers of exactly the usable entries, sorted |
| BatchStore.BatchRow.Advance | proseforge/application/agents/batch_dispatch.py:525-577 | the chapter hook in place: terminate, dispatch the next, or close with a summary |
| BatchSafety.NextIsLeast | proseforge/application/agents/batch_dispatch.py:553 | the next chapter is the least planned number beyond the finished one |
| BatchSafety.ChaptersFormAPrefix | proseforge/application/agents/batch_dispatch.py:525-577 | under any hook firings, the chapters with a run are the planned numbers up to a cut, one run each, every earlier one ended without cancellation; at most one plan, and behind the first end nothing but stalls of chapters with a run |
| BatchSafety.CreatedAfterPredecessor | proseforge/application/agents/batch_dispatch.py:553-569 | a chapter run is created only for the planned number right after a chapter that ended with something else than CANCELLED, or as the first one |
| BatchSafety.DispatchOutcome | proseforge/application/agents/batch_dispatch.py:466-474 | dispatching ends the batch exactly when creating the run was refused, otherwise leaves one more chapter waiting for its enqueue, and touches no other chapter |
| BatchSafety.NothingAfterTheEnd | proseforge/application/agents/batch_dispatch.py:415-419 | after the batch ended no chapter run is added, and no event but the stall of a chapter that still waited for its enqueue |
| BatchSafety.EndIsLastExactly | proseforge/application/agents/create_run.py:214-227 | the end of a batch is its last event exactly when no chapter waits for its enqueue any more |
| BatchSafety.EndsTwice | proseforge/application/agents/create_run.py:214-227 | a reachable batch with two ends |
| BatchSafety.SummaryPartitions | proseforge/application/agents/batch_dispatch.py:502-511 | the four lists of the summary together are the planned numbers, each counted once |
| BatchSafety.SummaryClassifies | proseforge/application/agents/batch_dispatch.py:502-511 | a number is in the list its run calls for |
| BatchSafety.CompletedAccountsForAll | proseforge/application/agents/batch_dispatch.py:570-577 | when batch.completed is written nothing is undispatched and the other three lists partition the plan |
| RateLimiter.WindowBound | proseforge/api/middleware.py:97-109 | for any trace of one key under a monotone clock, every half-open 60-second interval holds at most the limit of accepted requests |
| RateLimiter.AdmittedExactly | proseforge/api/middleware.py:69-78 | without another acceptance a refused client is admitted later exactly when the oldest hit is 60 seconds old |
| RateLimiter.RetryAfterSuffices | proseforge/api/middleware.py:80-85 | waiting the advertised Retry-After is enough, and it is at most one second too long |
| RateLimiter.Limiter.Window | proseforge/api/middleware.py:69-78 | the popping loop keeps exactly the hits of the last 60 seconds and no other key is touched |
| RateLimiter.Limiter.Dispatch | proseforge/api/middleware.py:97-109 | accepts exactly below the limit, records the later clock reading, and refuses with the Retry-After of the oldest hit |
| ContextCompiler.TokensCover | proseforge/context_engine/tokenizer.py:10-13 | the count is the least number of tokens covering the text, and joining texts never costs more than counting them apart |
| ContextCompiler.DeduplicateBlocks | proseforge/context_engine/deduplication.py:13-27 | the merging loop over the ordered dictionary |
| ContextCompiler.MergedRepresents | proseforge/context_engine/deduplication.py:13-27 | one block per text, none lost, with all non-empty source ids, the pin of any and the least priority of all blocks of that text |
| ContextCompiler.OrderIndependent | proseforge/context_engine/deduplication.py:13-27 | source ids, pin and priority of a text do not depend on the order of the blocks |
| ContextCompiler.DeduplicateIdempotent | proseforge/context_engine/deduplication.py:13-27 | deduplicating twice changes nothing |
| ContextCompiler.SortOrders | proseforge/context_engine/compiler.py:21 | the order is a permutation, pinned first and then by priority |
| ContextCompiler.SortStable | proseforge/context_engine/compiler.py:21 | blocks of equal rank keep their order |
| ContextCompiler.CompileContext | proseforge/context_engine/compiler.py:19-34 | the selection loop over the ordered blocks |
| ContextCompiler.CompiledContext | proseforge/context_engine/compiler.py:19-34 | every pinned text is selected, tokens exceed the budget at most by pinned texts, and no text left out would still fit |
| ContextCompiler.NoSourceLost | proseforge/context_engine/compiler.py:32-33 | every non-empty source id of the input is reported as used or excluded, and no other id is |
| ClueCover.ClueHit | proseforge/application/agents/quality_gate.py:114-130 | an exact occurrence hits, a shorter clue does not, and otherwise the verdict is whether the greedy cover is three fifths of the clue |
| ClueCover.TryFragment | proseforge/application/agents/quality_gate.py:122-129 | one window of the nested loops extends the marks to the greedy cover of the windows seen so far |
| ClueCover.CoverUnique | proseforge/application/agents/quality_gate.py:121-129 | clue and text have exactly one greedy cover |
| ClueCover.CoverIsMaximal | proseforge/application/agents/quality_gate.py:121-129 | no fragment of two or more uncovered characters occurs in the text |
| Repetition.CountGrams | proseforge/application/agents/quality_gate.py:147-155 | the dictionary of one size holds exactly the qualifying grams with their true overlapping counts |
| Repetition.AcceptSize | proseforge/application/agents/quality_gate.py:144-160 | after each size, exactly the repeating grams no longer accepted gram contains are accepted |
| Repetition.RepetitionFindings | proseforge/application/agents/quality_gate.py:133-162 | the report is the three most frequent accepted grams; below 32 characters there is none |
| Repetition.ReportsExactly | proseforge/application/agents/quality_gate.py:133-162 | there is a report exactly when some gram repeats |
| Repetition.ReportIsTrue | proseforge/application/agents/quality_gate.py:161-162 | every reported gram repeats with its true count, and an accepted gram is left out only by three that are no rarer |
| QualityGate.EvaluateGate | proseforge/application/agents/quality_gate.py:184-212 | the reasons are exactly those that apply, and the gate passes exactly without a reason |
| QualityGate.AllMissed | proseforge/application/agents/quality_gate.py:198-203 | all clues are missed exactly when none hits |
| QualityGate.HitDecides | proseforge/application/agents/quality_gate.py:114-130 | the verdict of a clue does not depend on which greedy cover is looked at |
| MemorySlice.ProposeKeepsRevisions | proseforge/application/agents/memory_service.py:91-128 | the n-th memory of a project's key is proposed as revision n |
| MemorySlice.DecideKeepsRevisions | proseforge/application/agents/memory_service.py:146-148 | an approval of any candidates keeps the numbering |
| MemorySlice.RevisionsAscend | proseforge/application/agents/memory_service.py:91-128 | revisions of a key grow with its rows, from 1 |
| MemorySlice.QuerySlice | proseforge/application/agents/memory_service.py:203-221 | the query loop returns the newest in-scope row per key, the last of them by id |
| MemorySlice.SliceHolds | proseforge/application/agents/memory_service.py:203-221 | a key is represented by its highest accepted in-scope revision, and a row is left out only by `limit` newer ones |
| MemoryCache.SliceCache.Put | proseforge/application/agents/memory_service.py:222-225 | a full cache gives up an entry of the least time before storing |
| MemoryCache.SliceCache.Load | proseforge/application/agents/memory_service.py:175-226 | a load without another one in between: a hit is returned and changes nothing, otherwise the uncached slice is returned and is what the next load hits |
| MemoryCache.SliceCache.FindOldest | proseforge/application/agents/memory_service.py:224 | a key whose entry has the least time |
| MemoryCache.HitIsRecent | proseforge/application/agents/memory_service.py:193-225 | a hit is the uncached slice of some moment less than two seconds before it, and at most 64 slices are cached |
| MemoryCache.SliceCache.Approve | proseforge/api/routes/agent_runs.py:580-582 | the candidates are decided in a loop, revisions are kept, and the cache is empty before the commit |
| MemoryCache.CommitShowsExactly | proseforge/api/routes/agent_runs.py:580-585 | a committed decision or memory is seen by every later hit exactly when no cached slice and no answer in flight, young enough to be hit, differs from the slice of its key |
| MemoryCache.QuietCommitShows | proseforge/application/work/summarize_chapter.py:504-506 | which is so when no load is in flight at the invalidation and none begins until the commit |
| MemoryCache.StaleAfterCommit | proseforge/api/routes/agent_runs.py:580-585 | a reachable run in which an approval that invalidates with no load in flight and then commits is hidden by a load between the two |
| PromiseLedger.PromiseRow.Transition | proseforge/application/agents/promise_handlers.py:406-412 | raises exactly on transitions the table does not have, and then changes nothing |
| PromiseLedger.PromiseRow.ApplyFulfillment | proseforge/application/agents/promise_handlers.py:415-461 | records a new fulfilment once, ticks the promise through the table without ever raising, and bumps the version |
| PromiseLedger.HistoryResult | proseforge/application/agents/promise_handlers.py:415-461 | over any calls the records are the distinct ones and a fresh promise is resolved exactly when enough distinct fulfilments were reported |
| PromiseLedger.ResolvedByReachingCall | proseforge/application/agents/promise_handlers.py:453-456 | the count is reached by one call and stays reached, and the resolving chapter is that of this call, whatever is reported later |
| PromiseLedger.RepeatIsIdempotent | proseforge/application/agents/promise_handlers.py:436-443 | reporting a known fulfilment again changes only the version |
| PromiseLedger.EndedStays | proseforge/application/agents/promise_handlers.py:453-458 | resolved, abandoned and excluded promises keep their status |
| PromiseLedger.NormalizeVerdicts | proseforge/application/agents/promise_handlers.py:464-476 | exactly the first verdict of every due key, in order |
| PromiseLedger.AnsweredKeyHasVerdict | proseforge/application/agents/promise_handlers.py:464-476 | every due key the model answered has a verdict |
| PromiseLedger.OneVerdictPerKey | proseforge/application/agents/promise_handlers.py:464-476 | only due keys have one, and none has two |
| PromiseLedger.VerdictFrom | proseforge/application/agents/promise_handlers.py:464-476 | every verdict is that of the first usable entry of its key |

## Left out

- The database: row locks, autoflush, constraint races inside one unit of work, and lost
  updates. Each unit of work is one step.
- A crash of the API or beat process between a commit and the enqueue that follows it:
  the enqueue in flight either happens or fails and is compensated.
- Handlers, prompts, providers, credentials, writeback, notifications, server-sent events
  and HTTP: a handler call is one of five outcomes.
- Gate verdicts inside the protocol are arbitrary; `QualityGate` models them separately.
- The prober's probe count and the sweeper's idle threshold: both actors may act whenever
  the rest of their guard holds, which allows more runs than the code does.
- The cap on active runs, as a fact about all runs: the prober does not look at it. A
  control action is told whether the cap is reached.
- A batch hook is one step up to the commit of the run it creates; the two commits behind
  a failed enqueue (FAILED run, stalled batch) are one more. Chapter keys are created by
  the hooks only; the chapter goal text, volume labels and the parsing of limits are left out.
- `int()` accepts more spellings than ASCII decimals; `Decimal.ParseInt` accepts those only.
- ExpandGraph.ValidateExpansion: states when the list is empty, not the texts and order of the
  violations in it.
- AgentExecutor.AgentExecutor.ExecuteRun: does not include other actors, which is where the
  loop need not end; the jitter of a backoff is a whole per mille.
- The auth bucket of the limiter, which records after awaiting the response.
- Whitespace and case folding of texts in the deduplicator: the normal form is any function,
  and its hash is taken to be injective.
- The parsing of word limits and clues from a goal, and counting evidenced findings in
  review payloads: `QualityGate.EvaluateGate` takes their results.
- The coverage ratio of a clue is compared as a fraction; the division in the source decides
  the same for any clue shorter than 2^50 characters.
- Budget limits grow by one half in exact arithmetic; the source multiplies by 1.5 as a float,
  which is the same below 2^52.
- Memory slices of several databases in one process: the cache key has one database here.
- Paragraph anchors and time stamps of promise fulfilments.
- The topological check of the creation endpoint, graph hashes and revisions, exports,
  backups and the web interface: they would add only easy members.
