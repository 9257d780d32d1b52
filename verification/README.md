# A verified model of the DurableMCP execution store

DurableMCP persists every tool call as an *execution* and hands it to workers under a *lease* with a
*fencing token*. This project models the store's transactions, the scheduler that reaps expired leases
and promotes due retries, the executor that drives them, and the dashboard's aggregate views, and it
proves what clients and workers can rely on over whole runs.

`dafny verify dfyconfig.toml` checks everything.

## How the model is built

* **Tables.** `Store.Postgres` is a class with the tables of the schema as fields: executions with their
  unique index, leases, the retry schedule, the event log, and the tool registry. Its methods are the
  store's transactions, written statement by statement, with the schema's foreign keys and the rollback
  after a database error. Each is proved to do to the tables what one function of `Database` does to
  their value.
* **Rows.** Every transaction touches one execution. `Rows.Record` collects all rows of one execution
  (its execution row, lease, retry row and own events), and `Rows.Apply` says what an operation does to
  them. `Database.Projection` and `Database.Insertion` reduce every transaction to that.
* **Runs.** `Database.Run` is any sequence of transactions from an empty store with a clock that never
  goes back. Tokens, timings and worker behaviour are arbitrary, and the scheduler's transactions may
  come at any moment with any arguments, so a run covers any number of schedulers.
  `Scheduler.Scheduled` adds the program counter of one scheduler process
  (`Idle`, `Reaping(rest)`, `Promoting(due)`): it reads a snapshot in one query and acts on its ids one
  transaction at a time, while everybody else keeps going. The process may abandon a pass at any point.
* **Effects.** What a transaction answers and what it does to each column is stated once more in `Effects`, in
  terms of the run alone: its steps, replies and tables. The functions of `Rows` and `Database` are held to that.
* **Fencing** (`Fencing`) is proved for every `Run`. What needs the scheduler to behave is proved for
  `Scheduled` runs: the central fact is that the rest of a snapshot always still describes the tables
  (`Scheduler.SnapshotStable`), so a pass refines an atomic scheduler and every row operation finds the
  row as its caller believes it to be.

## Assumptions

* Each transaction is one atomic step that reads one clock. Postgres' transaction-start times and
  overlapping transactions are not modelled.
* Properties stated for `Scheduler.Scheduled` assume one scheduler process, as in `docker-compose.yml:58-67`.
  `Limits.TwoSchedulersReopenCompletedCall` and `Limits.TwoSchedulersFreeLeasedCall` exhibit runs with two in
  which they fail.
* Execution ids, the clock, and what a tool's handler returns are parameters. An id that is already taken
  makes the insert fail, as the primary key would.
* Nothing is assumed about `max_attempts`: a call is tried at least once, so its budget is the larger of
  1 and `max_attempts` (`Coupling.Budget`).
* Time is counted in nanoseconds; the database's rounding to microseconds is not modelled.

## Where the code and its descriptions differ

* *"exponential backoff up to max_attempts"* (README.md:185): the nanosecond product overflows at
  attempt 34, and from there on the delay is never the promised power of two
  (`Durations.BackoffExactIff`, `Durations.BackoffOverflows`). It never exceeds it either
  (`Durations.BackoffNeverAbove`), so the bound on all waiting holds for every budget; a delay that wraps to a
  negative one counts as no waiting and cancels none (`Outcomes.RetryBudget`).
* *"claims it with the next monotonic fencing token"* (internal/store/ops.go:85-86): a rejected report logs the
  token its caller presented, so the largest BIGINT can enter the log, and then the next token does not
  exist. `Limits.ClaimFailureIsReachable` is such a run, and `Tokens.ClaimFailsIff` gives the exact condition.
  The row then stays ready for good and keeps every younger call from being claimed
  (`Progress.QueueBlocked`, `Progress.QueueRunsDry`). `Tokens.HonestClaimSucceeds` shows that this never
  arises while reports only present tokens that a claim returned. The headroom `Engine.Runtime.Drain` asks of
  every row is exactly what it takes: every row has it iff no continuation, in which claims take the oldest ready
  row and nobody presents a token above those logged, ever gets a row stuck (`Headroom.FitIffNeverStuck` over
  tables, `Headroom.FitIffRunNeverSticks` over the runs of one scheduler process).
* *"its fencing token is lower than the current claim's token"* (README.md:26-27): that is one of three reasons.
  A report is rejected iff a claim returned a larger token, or its own is the latest and the lease has ended or
  run out, or no claim ever returned it (`Fencing.RejectedReportIff`).
* A rejected `Heartbeat` logs nothing, so unlike a rejected `Complete` or `Fail` it need not be final;
  `Limits.HeartbeatIsAcceptedLater` is a run in which it is not. With any number of schedulers it is final if the
  log holds a token as large (`Fencing.RejectedHeartbeatIsFinal`). For an atomic scheduler the token can still
  come to be accepted iff the execution is not over, has an attempt left, its log holds no token as large, and no
  ready execution created earlier lacks a next token (`Rejection.RejectedHeartbeatMayBeAcceptedLater`); with the
  snapshot-then-act scheduler this is necessary (`Rejection.RejectedForGood`). It is not sufficient while the
  execution waits for a retry, because a pass reaps before it promotes, and that may put an older execution
  without a next token in front. `Waiting.AcceptedLaterIff` has the exact condition for the runs of one scheduler
  process, wherever its pass stands.

## Model

| member | source | states |
|---|---|---|
| Scheduler.SnapshotStable | internal/store/ops.go:280-338 | in every state of every run with one scheduler, with any client steps in between, every id the pass has not worked off yet is still running with that expired lease and those attempts, or still has its due retry row; and all rows are sound |
| Scheduler.AlwaysGuarded | internal/store/ops.go:340-383 | expireLease and promoteRetry check nothing, yet always find the row their query described; Claim always finds a ready row |
| Scheduler.PassRefinesAtomic | internal/store/ops.go:288-383 | every step of the snapshot-then-act scheduler is a step of one that picks, checks and changes a row in a single transaction |
| Scheduler.SchedulerSparesLiveWork | internal/store/ops.go:340-383 | no scheduler transaction ever changes a row with an unexpired lease, a ready row, or a finished one |
| Scheduler.PassReapsEveryStaleRow | internal/store/ops.go:288-315 | a pass that reaches its second query has reaped every execution that was stale at its first one, each exactly as an atomic reap at that moment would |
| Scheduler.PassPromotesEveryDueRow | internal/store/ops.go:317-337 | a pass that works off its second list has promoted every retry that was due when it was read, each exactly as an atomic promotion at that moment would |
| Scheduler.PassCountsItsLists | internal/store/ops.go:280-337 | however it interleaves, a pass that works off both lists makes as many changes as its two queries listed rows |
| Scheduler.PassChangesStatus | internal/store/ops.go:278-279 | each of these transactions changes the status of its row |
| Limits.TwoSchedulersReopenCompletedCall | internal/store/ops.go:288-313 | why one scheduler: a run of two scheduler processes that both list one expired lease, in which a Complete is accepted and the second process then makes the completed call ready again |
| Limits.StaleSnapshotReopensRow | internal/store/ops.go:340-364 | the same for every sound row with an expired lease and an attempt to spare |
| Limits.ReapedForGoodStays | internal/store/ops.go:340-364 | listed without an attempt to spare, a row is failed by the first reap, and a second one, or anything else that finds it as expected, leaves its execution row alone |
| Limits.TwoSchedulersFreeLeasedCall | internal/store/ops.go:317-333 | a run of two scheduler processes that both list one due retry: the second promotion makes a leased execution ready, and the next claim gets it beside its owner and beyond its budget |
| Limits.SecondPromotionFreesLeasedRow | internal/store/ops.go:366-383 | the same for every sound row with a due retry and a token left |
| Outcomes.CouplingInvariant | internal/store/ops.go:183-276 | running iff leased, pending iff a retry is scheduled, attempts equal the claimed events and stay within the budget, a result only when completed, never cancelled |
| Coupling.CoupledStep | internal/store/ops.go:87-383 | each operation on a row that is as its caller believes keeps status, lease, retry, budget and log coupled |
| Outcomes.EventSourcing | internal/store/query.go:131-156 | the history in ListEvents' order, with or without heartbeats, rejections and duplicates, determines status, attempts, error, lease holder, token and retry attempt |
| EventLog.NoiseIsIrrelevant | internal/store/ops.go:57-241 | heartbeat, stale_rejected and duplicate_detected events can be erased without changing what the history says |
| EventLog.SortedStably | internal/store/query.go:132-137 | the listing is in order of time, a permutation of the events, and keeps those of one instant in order of insertion |
| EventLog.ListedAsWritten | internal/store/query.go:132-137 | for a history written in chronological order it is the order of writing |
| Outcomes.OneExecutionPerKey | internal/store/ops.go:45-67 | all Submits of one (namespace, tool, key) answer the same id, every one after the first as a duplicate, for any number of schedulers |
| Effects.WorkerIsNamed | internal/store/store.go:135-153 | the log names the worker, or nobody for the empty worker id |
| Effects.RefusedSubmit | internal/store/ops.go:34-83 | Submit is refused, changing nothing, exactly for an unknown tool, or for a new key with an id that is taken |
| Effects.DuplicateSubmit | internal/store/ops.go:56-67 | a duplicate answers id, status and, once completed, result as they are at that moment, and only logs itself |
| Effects.AcceptedSubmit | internal/store/ops.go:45-83 | a new key inserts one ready execution with its two events and nothing else |
| Effects.SubmittedStays | internal/store/ops.go:32-50 | key, arguments ("{}" for none), the budget registered for the tool, and the time of creation are stored as submitted and never change |
| Effects.IdleClaim | internal/store/ops.go:96-114 | Claim answers that there is no work exactly if nothing is ready; any answer but a claim changes nothing |
| Effects.ClaimTakes | internal/store/ops.go:95-136 | Claim takes an oldest ready execution, one attempt further and running, with the next token and a lease to the claimant |
| Effects.ClaimHandsOutTheCall | internal/store/ops.go:107-141 | the answer of a Claim names the tool, arguments and budget that were submitted, and the end of the lease |
| Effects.HeartbeatMovesExpiry | internal/store/ops.go:146-170 | a Heartbeat is accepted exactly under a live lease with its token, moves its end to the full length from now and logs itself; otherwise nothing changes |
| Effects.AcceptedComplete | internal/store/ops.go:183-212 | under a live lease Complete stores the result, clears the error and ends the lease |
| Effects.AcceptedFail | internal/store/ops.go:229-274 | under a live lease Fail stores the error and ends the lease; the execution fails or waits for a retry due exactly the logged backoff from now |
| Effects.RejectedReport | internal/store/ops.go:192-247 | without a live lease a report leaves only a stale_rejected event with its worker, token and reason |
| Effects.ReapActs | internal/store/ops.go:340-364 | expireLease ends the lease, whoever holds it, and makes the execution ready or fails it by the numbers it was given |
| Effects.PromoteActs | internal/store/ops.go:366-383 | promoteRetry removes the retry and makes the execution ready |
| Outcomes.OutcomeIsFinal | internal/store/ops.go:183-237 | completed and failed are absorbing, with result and error |
| Outcomes.CompletedAtMostOnce | internal/store/ops.go:175-212 | one execution accepts at most one Complete, logs at most one completed event, and accepts nothing afterwards |
| Outcomes.ReplayReturnsResult | internal/store/ops.go:56-67 | after an accepted Complete every later Submit of that key answers completed with exactly that result |
| Outcomes.OwnershipNeverOverlaps | internal/store/ops.go:95-132 | between two successive claims of one execution the first owner's Fail was accepted or its last expiry passed, and nobody owned it from there on |
| Outcomes.FewStatusChanges | internal/store/ops.go:104-373 | after submission the status changes at most 3 * budget - 1 times, whatever the interleaving |
| Coupling.PotentialStep | internal/store/ops.go:104-373 | a measure that every status change lowers and nothing raises; finished rows keep their execution row |
| Outcomes.RetryBudget | internal/store/ops.go:229-274 | exactly the retry events carry a retry plan, with strictly increasing attempt numbers below the budget, and for every budget all delays waited, negative ones counting as none, sum to at most 2^budget - 2 seconds |
| Outcomes.RetryComesWhenDue | internal/store/ops.go:258-274 | after an accepted Fail with an attempt to spare the execution waits, with the reported error, for a retry due exactly the logged backoff later; before that instant it is neither promoted nor claimed |
| Outcomes.FailLogsBackoff | internal/store/ops.go:264-271 | every such Fail logs its backoff, up to attempt 33 two to the power of the attempts made |
| Outcomes.ViewsAddUp | internal/store/query.go:31-49 | in every reachable state the statuses not shown are the scheduled retries, live leases never exceed running executions and match them iff none has expired, and the workers' counts sum to the live leases |
| Counting.NothingToCount | internal/store/query.go:31-49 | an empty store shows zeros |
| Counting.SubmitCounts | internal/store/query.go:33-41 | a new call adds one to total and ready; any other Submit changes no count |
| Counting.ClaimCounts | internal/store/query.go:33-41 | a claim moves one from ready to running |
| Counting.CompleteCounts | internal/store/query.go:33-41 | an accepted Complete moves one from running to completed; a rejected one changes no count |
| Counting.FailCounts | internal/store/query.go:33-41 | an accepted Fail takes one from running, into failed exactly when no attempt is left |
| Counting.ReapCounts | internal/store/query.go:33-41 | a reap moves one from running to ready or, without an attempt to spare, to failed |
| Counting.PromoteCounts | internal/store/query.go:33-41 | a promotion adds one to ready |
| Counting.OthersCountNothing | internal/store/query.go:33-41 | heartbeats, registrations and the scheduler's queries change no count |
| Fencing.TokensIncrease | internal/store/ops.go:116-130 | successive claims of one execution return strictly increasing tokens, whatever tokens callers present |
| Fencing.AcceptedPresentsLatestClaim | internal/store/ops.go:154-237 | every accepted Heartbeat, Complete or Fail presented the token of the most recent claim |
| Fencing.OneReportPerToken | internal/store/ops.go:183-253 | of two accepted reports the later one carries the larger token, so no token is used twice |
| Fencing.RejectedForever | internal/store/ops.go:187-247 | after a Complete or Fail is answered with ErrStale its token is never accepted again |
| Fencing.RejectedHeartbeatIsFinal | internal/store/ops.go:154-162 | a rejected Heartbeat is final if the log holds a token at least as large, for any number of schedulers |
| Limits.HeartbeatIsAcceptedLater | internal/store/ops.go:154-162 | a run in which a Heartbeat is rejected and, after a claim, the same one is accepted |
| Rejection.RejectedHeartbeatMayBeAcceptedLater | internal/store/ops.go:154-162 | over tables with oldest-first claims and a scheduler that acts atomically: some continuation makes the row accept the rejected token iff it is not over, has an attempt left, logged no token as large, and no ready row created earlier lacks a next token |
| Waiting.AcceptedLaterIff | internal/store/ops.go:280-338 | over the runs of one scheduler process, wherever its pass stands: an extension in which the token is accepted exists iff the same holds and, if the execution waits for a retry, the pass or a new one can promote it before it makes an older execution without a next token ready |
| Waiting.RetryIsPromoted | internal/store/ops.go:280-338 | the passes that do so: going on with the reaping, going on with the promoting, or starting afresh |
| Rejection.RejectedForGood | internal/store/ops.go:154-162 | in a run with one scheduler a rejected Heartbeat is final, for reports too, if the execution is over, has no attempt left, logged a token as large, or has a ready execution without a next token before it |
| Fencing.AcceptanceIsRecent | internal/store/ops.go:123-190 | whatever is accepted at time T was granted a lease, by a claim or accepted heartbeat with that token, that lasts beyond T |
| Fencing.AbandonedClaimIsRejected | cmd/demo-agent/main.go:86-106 | a claim without heartbeats is rejected from its expiry on, whether or not anybody reaped it |
| Fencing.RejectedReportIff | internal/store/ops.go:183-247 | a report is rejected iff no claim ever returned its token, or a claim returned a larger one, or it is the latest claim's and that lease has ended or run out |
| Fencing.HistoryGrows | internal/store/store.go:134-153 | the log is append-only |
| Tokens.HonestTokensAreDense | internal/store/ops.go:104-119 | if reports only present tokens that claims returned, the k-th claim's token is k, the number of attempts, and within the budget |
| Tokens.HonestClaimSucceeds | internal/store/ops.go:116-121 | such a row never runs out of tokens |
| Tokens.ClaimFailsIff | internal/store/ops.go:116-121 | with work at hand Claim fails, changing nothing, exactly if the largest BIGINT is in the oldest ready row's log |
| Limits.ClaimFailureIsReachable | internal/store/ops.go:187-199 | four transactions after which Claim has failed with work at hand |
| Progress.QueueBlocked | internal/store/ops.go:95-121 | a ready row without a next token stays ready and unchanged for good, is never claimed, and every later claim takes another execution created no later |
| Progress.QueueRunsDry | internal/store/ops.go:95-121 | the claims that still succeed are bounded by what was owed to those others, whatever is submitted later |
| Tokens.MaxTokenStep | internal/store/ops.go:118-241 | which tokens enter the log: claims' and, accepted or not, presented ones |
| Progress.NoStarvation | internal/store/ops.go:96-108 | while a ready execution waits, successful claims number fewer than the attempts owed to it and to executions no younger, however many newer calls arrive |
| Progress.HonestCallsReachEveryone | internal/store/ops.go:96-121 | if reports only present tokens that claims returned, the bound covers calls: once that many calls of Claim have been made, the waiting execution has been claimed |
| Renewal.RenewalKeepsOwnership | internal/executor/engine.go:108-135 | with lag plus delay below L - I and no heartbeat lost, or below L - 2I and no two lost in a row, the lease is live at every later step: never reaped, never reclaimed, heartbeats and the final report accepted |
| Renewal.LastGrantCovers | internal/executor/engine.go:109-122 | the ticker's arithmetic: up to the next heartbeat the last one that got through still covers |
| Engine.Runtime.Normalise | internal/executor/engine.go:32-44 | the defaults of Run; afterwards two heartbeat periods fit into every lease that fits a Duration |
| Engine.Runtime.Execute | internal/executor/engine.go:73-104 | by the columns of the claimed row: if the lease is still live when the handler is done, a result leaves it completed with that result, an error or an unknown tool leaves it failed or waiting with that error; if not, the report leaves a rejection by this worker; an error after a cancellation, or a worker that vanished, leaves what the heartbeats left |
| Engine.Runtime.HeartbeatLoop | internal/executor/engine.go:108-135 | renews at every tick that gets through and cancels exactly when a renewal is rejected |
| Engine.RenewedUntil | internal/executor/engine.go:116-133 | the loop cancels iff some heartbeat comes at or after the expiry bought by the ones before; otherwise the last of them sets the expiry |
| Engine.Runtime.RunUntilIdle | internal/executor/engine.go:47-69 | a chain of rounds, each a claim of an oldest ready execution under the worker's name and lease length and the work on it, one owed attempt per round, until nothing is ready |
| Engine.Runtime.Drain | cmd/scheduler/main.go:36-50 | claiming until idle, with heartbeats and reports on time, late or never, letting deadlines pass and running the scheduler ends with every execution completed or failed, after at most the attempts owed |
| Draining.PassLowersTotals | internal/store/ops.go:280-338 | with nothing ready and every deadline past, a pass moves every open execution on |
| Headroom.FitIffNeverStuck | internal/store/ops.go:95-121 | over tables: each row's largest token plus the attempts it is owed fits a BIGINT, unless it is over, iff no continuation with oldest-first claims and known tokens only ends with a row that is ready and unclaimable |
| Headroom.FitIffRunNeverSticks | internal/store/ops.go:95-121 | the same of the extensions of any run of one scheduler process, however far it is into a pass |
| Headroom.UnfitTableGetsStuck | internal/store/ops.go:95-121 | if one row lacks the headroom, claims of the oldest ready row, each abandoned and reaped, end with some row stuck |
| Draining.PassLeavesUnfit | internal/store/ops.go:340-383 | a pass turns such a running or pending row, past its deadline, into a ready one that still lacks the headroom |
| Draining.HonestRowIsFit | internal/store/ops.go:104-119 | honest use always leaves that headroom |
| Durations.BackoffExactIff | internal/store/ops.go:264 | the backoff is 2^attempts seconds iff attempts is at most 33 |
| Durations.BackoffNeverAbove | internal/store/ops.go:264 | the backoff never exceeds 2^attempts seconds |
| Durations.BackoffOverflows | internal/store/ops.go:264 | at attempt 34 it is about minus forty years |
| Durations.IntervalIsThirdIff | internal/executor/engine.go:109 | for a positive lease the heartbeat period is a third of it, rounded down, iff the lease fits a Duration |
| Durations.IntervalDefaults | internal/executor/engine.go:109-112 | without a lease, and for the first leases whose length wraps around, it is ten seconds |
| Pass.PassMovesRows | internal/store/ops.go:340-383 | a pass sends expired rows to ready or failed by their budget, due ones to ready, and leaves the rest alone |
| Pass.SecondPassIsIdle | internal/store/ops.go:280-338 | after a pass nothing is expired or due, and a second pass at that time changes nothing |
| Views.WorkersAddUp | internal/store/query.go:159-181 | the per-worker counts sum to the active leases |
| Database.Projection | internal/store/ops.go:27-383 | a transaction changes an existing execution's rows only by the operation aimed at it |
| Database.Insertion | internal/store/ops.go:45-83 | only a Submit of a new key inserts, and it inserts a ready call with two events |
| Database.KeysAlwaysAgree | migrations/001_init.sql:25-39 | unique index and key columns are the same bijection, and every execution's tool is registered |
| Database.FirstToolWins | internal/store/query.go:13-28 | registered tools are never overwritten |
| Store.Postgres.SeedTools | internal/store/query.go:13-28 | inserts the batch tool by tool, skipping names that exist |
| Store.Postgres.AppendEvent | internal/store/store.go:135-153 | appends one event, or fails on an unknown execution |
| Store.Postgres.Submit | internal/store/ops.go:27-83 | performs the submit transaction of the specification, with its four answers |
| Store.Postgres.Claim | internal/store/ops.go:87-141 | takes a legal oldest ready row and performs the claim transaction, or finds that there is none |
| Store.Postgres.OldestReady | internal/store/ops.go:96-102 | finds a ready row that no ready row predates, or none iff there is none |
| Store.Postgres.NextTokenOf | internal/store/ops.go:116-119 | computes one above the largest logged token of the execution |
| Store.Postgres.Heartbeat | internal/store/ops.go:146-170 | performs the heartbeat transaction |
| Store.Postgres.Complete | internal/store/ops.go:175-212 | performs the completion transaction, accepted or rejected |
| Store.Postgres.Fail | internal/store/ops.go:219-276 | performs the failure transaction: rejected, terminal, or with a retry scheduled |
| Store.Postgres.ExpireLease | internal/store/ops.go:340-364 | performs the reaper's transaction with the numbers it is given |
| Store.Postgres.PromoteRetry | internal/store/ops.go:366-383 | performs the promoter's transaction |
| Store.Postgres.QueryStale | internal/store/ops.go:288-306 | lists each running execution with an expired lease once |
| Store.Postgres.QueryDue | internal/store/ops.go:315-328 | lists each due retry once |
| Store.Postgres.RunSchedulerPass | internal/store/ops.go:280-338 | uninterrupted at one time, applies the pass to every row and counts exactly the expired and the due ones |
| Store.Postgres.ListEvents | internal/store/query.go:131-156 | lists exactly the execution's events, by time and among equal times by order of insertion |
| Store.Postgres.Stats | internal/store/query.go:31-49 | counts the executions by status and the live leases; `Counting` says how each count moves |
| Store.Postgres.ListWorkers | internal/store/query.go:159-181 | lists each worker with a live lease once, with the number of its live leases |

## Left out

- Overlapping database transactions, row locks and SKIP LOCKED: every transaction is one atomic step. A claim that overlaps another one may skip the row which that one has locked; what `Progress` says about the order of claims is about claims that do not overlap.
- Several scheduler processes, for the results about `Scheduler.Scheduled`: they do not hold there, see above.
- Network and database failures in the middle of an operation: a failed operation is one that did not happen; the scheduler may give up a pass at any step.
- Tool handlers: network, file and sleep effects; a handler returns a result, an error, or nothing.
- JSON encoding of arguments, results and payloads, and jsonb's normalisation of them: opaque texts; invalid JSON is not modelled.
- `claimed_at`, `updated_at`, descriptions, input schemas, `lease_seconds` of tools, and the age column of ListWorkers: no protocol content.
- Store.Postgres.ListWorkers: the order of the groups is left open, because it depends on the database's collation.
- Engine.Runtime.Execute: all heartbeats come before the report and nobody else acts in between; one that races with the report is not modelled. `Renewal.RenewalKeepsOwnership` has the statement with everybody interleaved.
- Engine.Runtime.Drain: claims and passes take turns, and nobody submits meanwhile.
- Engine.Runtime.RunUntilIdle: the endless poll loop is modelled up to its first ErrNoWork; polling pauses, logging and the handling of database errors by retrying are not.
- Engine.Runtime.HeartbeatLoop: runs without interference by others; `Renewal.RenewalKeepsOwnership` has the interleaved statement. The per-request timeout only bounds the delay.
- Store.Postgres.RunSchedulerPass: one clock reading for the whole pass, nobody in between, and no early return on an error; `Scheduler` has the interleaved pass, which may be given up at any step.
- The range check of the INT columns on insertion: budgets are 32-bit by type.
- Durations beyond the range of Postgres intervals and timestamps.
- ListTools, ListExecutions, GetExecution, the HTTP and MCP layers, configuration, and the web dashboard: reads and wrappers without protocol content.
- The `cancelled` status: declared in the schema and never set; `Outcomes.CouplingInvariant` proves it unreachable.
