# A model of the lease-fenced job queue and its idempotent charge

This project states and proves what ReliableQ promises: jobs are claimed under a lease, executed at least
once, charged at most once, and always end. It has three layers.

1. **The queue database.** `Queue` gives every statement of the repository as a function on table values and
   every transaction as an `Event`. Its machine is open: any event may come at any time with any token, so
   a theorem about its runs holds for crashed, paused and misbehaving workers alike. `Audit`, `Fencing`,
   `Progress`, `Bypass`, `SplitClaim`, `OperatorRetry` and `Pagination` prove properties of all its runs.
   `Store` is the same repository as a class over mutable tables, in statement order and with the claim's
   insert loop; each method moves the tables exactly as the corresponding event does.
2. **Workers and the charge service.** `Charges` interleaves the two statements of any number of charge
   requests. `Protocol` puts queue, service and workers together, one step at a time, with crashes, lost
   responses and requests served after their worker gave up. `ExactlyOnce`, `Reasons`, `Explanations`, `Drain`
   and `Delays` prove the whole-system guarantees, and `SplitSystem` those that survive when claims run
   statement by statement. `Worker` is the worker's own code as methods over both stores, each execution of
   which is shown to be a schedule of `Protocol`.
3. **Time and scheduling.** `Config`, `Backoff`, `Heartbeat` and `Poll`.

`Effects` says column by column what each transaction does to the rows, and `Decisions` which of them each
result of a charge call leads to. `Core`, `Sums` and `Selection` hold shared definitions; `Validation`,
`Failure` and `Idempotency` are the shared checks.

Assumptions: a transaction is atomic with `now()` frozen at its start (`SplitClaim` lifts this for the
claim); the database clock never goes back; generated tokens and ids are new. Times and leases are whole
milliseconds, and backoff is computed in nanoseconds. Clocks, ids, jitter, latency and network behaviour are
parameters or choices of the run.

## Where the code differs from its comments or from the obvious claim

- `crates/reliableq-worker/src/poll.rs:27-28` says nothing is claimed once shutdown has fired. A claim can
  follow until a `select!` takes its shutdown branch (`Poll.ClaimAfterShutdownFired`,
  `Poll.NoClaimAfterShutdownTaken`).
- `crates/reliableq-db/src/jobs.rs:148-149` says expired RUNNING jobs are not reclaimed; the code reclaims
  them, and the model follows the code.
- Attempt outcomes are not write-once: LEASE_LOST can become SUCCEEDED (`Fencing.LeaseLostOverwritten`,
  reached by `Fencing.LeaseLostOverwriteHappens`). `Fencing.OutcomeStep` says exactly when a closed row is
  rewritten; every other outcome is final (`Fencing.FinalOutcome`).
- Two open attempts of one job can coexist, if a claim stalls between its statements for longer than the
  lease it then writes (`SplitClaim.StalledClaimLeavesTwoOpenAttempts`). Exactly when they do is
  `SplitClaim.TwoOpenExactly`; exactly when the audit invariant fails is `SplitClaim.InvExactly`. That no claim
  writes a lease another running one sees as expired is enough for both (`SplitClaim.TimelyIsClean`), and is
  the exact condition for the stronger split invariant (`SplitClaim.SoundExactly`). Fencing and at most one
  charge hold without any of these conditions (`SplitSystem`).
- An operator retry whose read and update are separated can leave a job PENDING with no budget for ever;
  `OperatorRetry.SplitRetryExact` says exactly when.
- The failpoint in the middle of finalizing reports an exhausted budget with budget left
  (`Reasons.MisreportHappens`). `Reasons.BudgetCodesAreTrue` gives the exact condition for the codes to be true.
- The default retry budget is a plain 32-bit addition (`crates/reliableq-api/src/jobs.rs:275`), modelled as
  wrapping.
- The charge service reports an injected status in 200..299 as a success without storing anything
  (`crates/fake-charge/src/charges.rs:75-81`), and the worker then marks the job SUCCEEDED
  (`ExactlyOnce.FalseSuccessHappens`). `ExactlyOnce.ChargedExactly` gives the exact condition for every
  SUCCEEDED job to be charged, and `ExactlyOnce.RealExactly` its root cause; at most one charge, with the job's own payload, holds without any condition.

## Model

| member | source | states |
|---|---|---|
| `Store.Store.ClaimPendingJobs` | crates/reliableq-db/src/jobs.rs:150-265 | From a database that satisfies the invariant and with any rows locked elsewhere, every column of every row: at most limit rows are taken, each PENDING and due or RUNNING with its lease run out, with attempts left, and a row of that kind is left out only by a full claim of rows due no later and, if due together, created no later; a taken row is RUNNING under its own fresh token until now + lease with attempts + 1 and keeps its first start; every other expired row without attempts left is DEAD with LEASE_EXPIRED_BUDGET_EXHAUSTED; open attempts of expired jobs are LEASE_LOST; each taken job has a new open attempt and is reported once; all else is as before |
| `Store.Store.SelectDue` | crates/reliableq-db/src/jobs.rs:212-222 | Taking the first remaining claimable row that is not locked, until the limit or the end, yields min(limit, number) rows that precede all others left behind |
| `Store.Store.First` | crates/reliableq-db/src/jobs.rs:219 | The scan returns a row that precedes every row of the pool |
| `Store.Store.MintTokens` | crates/reliableq-db/src/jobs.rs:226 | One token per leased row, distinct from each other and from every token minted before |
| `Store.Store.CloseStatement` | crates/reliableq-db/src/jobs.rs:162-174 | Statement 1 closes as LEASE_LOST, at the current time, the open attempts of all expired jobs, and changes no other row or column |
| `Store.Store.KillStatement` | crates/reliableq-db/src/jobs.rs:180-202 | Statement 2 makes the expired jobs without attempts left whose rows are not locked DEAD with LEASE_EXPIRED_BUDGET_EXHAUSTED, finished now and without lease, and changes no other row or column |
| `Store.Store.LeaseStatement` | crates/reliableq-db/src/jobs.rs:223-232 | Statement 3 leases exactly the selected rows, each under its own fresh token until now + lease, with attempts + 1 and the first start kept |
| `Store.Store.InsertAttempts` | crates/reliableq-db/src/jobs.rs:240-261 | The loop adds exactly one open attempt row per claimed job, numbered by its new attempts value, in whatever order the rows come back |
| `Store.Store.FinalizeSuccess` | crates/reliableq-db/src/jobs.rs:277-323 | Returns whether the token still guards the job; if it does, the job is SUCCEEDED, finished now, without lease and without error, its attempt row is SUCCEEDED, and no other row or column changed; else nothing did |
| `Store.Store.FinalizeRetryScheduled` | crates/reliableq-db/src/jobs.rs:331-392 | The same for PENDING and due at database time plus the delay, with the error on both rows and the delay on the attempt row |
| `Store.Store.FinalizeDead` | crates/reliableq-db/src/jobs.rs:397-449 | The same for DEAD with the reason on both rows |
| `Store.Store.RenewLease` | crates/reliableq-db/src/jobs.rs:493-513 | Moves the expiry of that lease to database time plus its duration, exactly when the token still guards the job, and no other column |
| `Store.Store.RetryDeadJob` | crates/reliableq-db/src/jobs.rs:459-485 | None for a missing or non-DEAD job; an error without effect exactly when the budget is out of range or below the attempts spent; otherwise the row PENDING and due now with the new budget, no error and no finish time, its attempts, payload and start as before |
| `Store.Store.InsertJob` | crates/reliableq-db/src/jobs.rs:78-99 | Succeeds exactly for a new id, a budget the CHECKs accept and text the database can store; then the row holds the submitted payload and budget, is PENDING with no attempts, created and due now, and all other columns are empty |
| `Selection.SelectionExists` | crates/reliableq-db/src/jobs.rs:212-222 | For every table and limit there is an ordered, limited selection |
| `Selection.LeftBehind` | crates/reliableq-db/src/jobs.rs:219-221 | A claim leaves a claimable row that is not locked behind only when it is full of rows that precede it |
| `Audit.StepKeepsInv` | migrations/0001_init_schema.sql:27-62 | Every transaction, issued by anyone with any token, keeps all CHECK and UNIQUE constraints, attempt numbers exactly 1..attempts, agreement between each attempt row and its job row, and uniqueness of tokens |
| `Audit.RunKeepsInv` | crates/reliableq-db/src/jobs.rs:78-513 | The same over every run |
| `Audit.AuditTrail` | crates/reliableq-bench/src/correctness.rs:137-167 | After every run from the empty database: complete numbering; an open attempt is the last one and its token guards the job; a job is SUCCEEDED exactly when its last attempt is, and no earlier attempt is |
| `Audit.ClaimNeverRejected` | migrations/0001_init_schema.sql:62 | No statement of a claim violates a CHECK and no attempt insert hits the UNIQUE constraint |
| `Audit.LeaseWritesNeverRejected` | migrations/0001_init_schema.sql:27-36 | No finalizer or renewal that matches can violate a CHECK |
| `Audit.ReplayRejectedExactly` | crates/reliableq-db/src/jobs.rs:464-478 | An operator replay of a DEAD job is refused if and only if the new budget is below the attempts spent, or does not fit 32 bits |
| `Fencing.TokenStep` | crates/reliableq-db/src/jobs.rs:223-232 | A minted token that does not guard a job never starts to, and while one does, status, attempts, budget and payload do not change |
| `Fencing.HeldThroughout` | crates/reliableq-worker/src/lib.rs:238 | If a token guards a job at the end of a run it did so in every state of the run, with the claim-time snapshot unchanged |
| `Fencing.StaleTokenIsInert` | crates/reliableq-db/src/jobs.rs:295-306 | Once a token stops matching, every later finalize or renew with it changes nothing, in every run |
| `Fencing.FencedFinalize` | crates/reliableq-db/src/jobs.rs:295-319 | From the claim that minted the token: a finalizer that takes effect writes that job and that one attempt row and nothing else, with attempts, budget and payload still those claimed |
| `Fencing.OneJobPerToken` | crates/reliableq-db/src/jobs.rs:226 | A token guards at most one job |
| `Fencing.OutcomeStep` | crates/reliableq-db/src/jobs.rs:162-172 | An attempt row that has an outcome is rewritten if and only if a finalizer of the current holder comes under its token, and then the outcome was LEASE_LOST |
| `Fencing.FinalOutcome` | crates/reliableq-db/src/jobs.rs:308-313 | SUCCEEDED, RETRY_SCHEDULED and DEAD attempt rows are never written again, in any run |
| `Fencing.LeaseLostOverwritten` | crates/reliableq-db/src/jobs.rs:308-313 | LEASE_LOST is not final: an empty claim closes an expired attempt and its holder then turns it into SUCCEEDED |
| `Fencing.LeaseLostOverwriteHappens` | crates/reliableq-db/src/jobs.rs:308-313 | A run from the empty database reaches the state where that happens |
| `SplitClaim.InvExact` | crates/reliableq-db/src/jobs.rs:158-238 | With a claim cut into its statements and anything interleaved, one step keeps the audit invariant if and only if it is clean: it neither leases nor buries a job that has an open attempt |
| `SplitClaim.InvExactly` | crates/reliableq-db/src/jobs.rs:158-265 | The audit invariant holds in every state of a run of interleaved statements if and only if every step is clean |
| `SplitClaim.TwoOpenExact` | crates/reliableq-db/src/jobs.rs:204-261 | From a state where no job has two open attempts, one step gives a job two if and only if it opens one beside an open one |
| `SplitClaim.TwoOpenExactly` | crates/reliableq-db/src/jobs.rs:158-265 | No job has two open attempts in any state of a run if and only if no step opens one beside an open one, whether or not the rest of the audit invariant holds |
| `SplitClaim.StepExact` | crates/reliableq-db/src/jobs.rs:158-238 | One step keeps the stronger split invariant, under which no job expired at the frozen time of a running claim has an open attempt, if and only if it is timely: it writes no lease that another running claim already sees as expired |
| `SplitClaim.WholeKeepsClosed` | crates/reliableq-db/src/jobs.rs:493-513 | Whole transactions leave no open attempt at an earlier frozen time, and the set of jobs expired at that time only shrinks |
| `SplitClaim.LeaseKeepsClosedExactly` | crates/reliableq-db/src/jobs.rs:210-261 | A lease statement leaves nothing dangling at a frozen time exactly when its leases outlast that time |
| `SplitClaim.SoundExactly` | crates/reliableq-db/src/jobs.rs:158-265 | The split invariant holds in every state of a run if and only if every step is timely |
| `SplitClaim.TimelyIsClean` | crates/reliableq-db/src/jobs.rs:158-265 | A timely run is clean, so it keeps the audit invariant as well |
| `SplitClaim.SplitClaimsAreSound` | crates/reliableq-db/src/jobs.rs:158-265 | A condition each claim can see to alone: if none stalls for as long as the lease it writes, every interleaving is timely |
| `SplitClaim.OneOpenAttempt` | crates/reliableq-db/src/jobs.rs:158-172 | After a timely run two open attempts of one job never coexist |
| `SplitSystem.SplitTokenStep` | crates/reliableq-db/src/jobs.rs:223-232 | Over single statements too, a minted token that does not guard a job never starts to, and while one does, its snapshot stays |
| `SplitSystem.SplitFencedFinalize` | crates/reliableq-db/src/jobs.rs:295-319 | From the lease statement that minted a token and over any interleaving, untimely and unclean steps included: a finalizer that takes effect writes that job and that one attempt row and nothing else |
| `SplitSystem.SplitAtMostOneCharge` | crates/reliableq-worker/src/lib.rs:140-437 | Over every schedule of the whole system with claims cut into statements, however long they stall, a job has at most one charge row and that row carries its own payload |
| `SplitClaim.StalledClaimLeavesTwoOpenAttempts` | crates/reliableq-db/src/jobs.rs:204-238 | With a stalled claim they do: a concrete interleaving reaches two open attempts of one job |
| `Progress.AttemptsCountClaims` | crates/reliableq-db/src/jobs.rs:225 | Over any run, replays included, attempts grow by exactly the number of claims that took the job |
| `Progress.ClaimedWithinBudget` | crates/reliableq-db/src/jobs.rs:218 | Without a replay of it a job is claimed at most max_attempts - attempts times |
| `Progress.StrandedStep` | crates/reliableq-db/src/jobs.rs:331-392 | A step keeps every PENDING job below its budget if and only if no reschedule that takes effect comes without attempts left and no replay of a DEAD job grants exactly what was spent |
| `Progress.StrandedForever` | crates/reliableq-db/src/jobs.rs:218 | A PENDING job without budget is never changed again by any run |
| `Progress.NeverStuck` | crates/reliableq-db/src/jobs.rs:176-222 | Any other unfinished job becomes claimable, or due for burial, once the clock has advanced |
| `Progress.RankRun` | crates/reliableq-db/src/jobs.rs:176-238 | Without replays a rank, lexicographic in remaining budget and status, never rises for any job |
| `Progress.RoundLowers` | crates/reliableq-db/src/jobs.rs:150-265 | One round of waiting until some job is due, claiming and arbitrary other events lowers the total rank while a job is unfinished |
| `Progress.Drains` | crates/reliableq-db/src/jobs.rs:150-449 | In the open queue machine, after at most the total rank many claims made while some job is due, whatever other leases are live and whatever else happens but inserts and replays, every job is SUCCEEDED or DEAD |
| `Progress.RoundsExist` | crates/reliableq-db/src/jobs.rs:150-265 | From every state without stranded jobs any number of such rounds is possible |
| `Drain.SystemDrains` | crates/reliableq-worker/src/lib.rs:140-327 | In the whole system: after at most the total rank many rounds of waiting until some job is due, claiming and any steps but inserts and retries, live heartbeats included, every job is SUCCEEDED or DEAD |
| `Drain.ScheduleIsDbRun` | crates/reliableq-worker/src/lib.rs:212-326 | A schedule of the system is a run of the queue machine in which everybody keeps budget, if nobody retries a job |
| `Drain.NextRoundExists` | crates/reliableq-db/src/jobs.rs:150-265 | After any rounds from a state without stranded jobs there is a next one, since workers strand none |
| `Bypass.BoundedBypass` | crates/reliableq-db/src/jobs.rs:212-222 | While a due PENDING job stays unclaimed, the number of claim calls that can see its row is at most the remaining budgets of the jobs ordered at or before it when the run began, despite locked rows, retries, reclaims, inserts and replays |
| `Bypass.ClaimedInTime` | crates/reliableq-db/src/jobs.rs:212-222 | One such claim call more, and the job has been claimed |
| `OperatorRetry.AtomicRetryLeavesBudget` | crates/reliableq-api/src/jobs.rs:254-284 | Read and update as one step leave the job claimable, or change nothing, the latter exactly when the default increment overflows |
| `OperatorRetry.SplitRetryExact` | crates/reliableq-api/src/jobs.rs:254-284 | As two steps with any run in between, other racing retries included: the late update finds the job DEAD and leaves it PENDING without budget if and only if it is DEAD again and the claims in between used up the whole new budget |
| `OperatorRetry.OnlyThisJobStranded` | crates/reliableq-api/src/jobs.rs:254-284 | If all others keep budget, the late update strands no other job, and this one exactly then |
| `OperatorRetry.RacingRetriesStrand` | crates/reliableq-api/src/jobs.rs:278-284 | In that case it stays so for ever |
| `OperatorRetry.RaceHappens` | crates/reliableq-api/src/jobs.rs:254-284 | A concrete run from the empty database that meets the condition |
| `OperatorRetry.RetryJob` | crates/reliableq-api/src/jobs.rs:249-287 | Each refusal with its own error and without effect: missing, not DEAD, a budget outside 1..20 or not above the attempts spent, an overflow; otherwise the job has the budget asked for, or five more than it spent, is PENDING and due now, and nothing else changed |
| `OperatorRetry.SubmitJob` | crates/reliableq-api/src/jobs.rs:140-163 | A job is written exactly when kind (not blank, at most 64 bytes), budget (1..20) and payload pass, the database can store their text and the id is new; the row is then the one submitted, PENDING and claimable at once |
| `Charges.InsertIsLinearizationPoint` | crates/reliableq-db/src/charges.rs:46-85 | Whatever interleaves, a request answered from the table gets what an atomic insert-if-absent would have said at its insert statement, and the table changes as that operation changes it |
| `Charges.NeverInconsistent` | crates/reliableq-db/src/charges.rs:66-75 | The select after a conflict always finds the row |
| `Charges.OneWinnerPerKey` | crates/reliableq-db/src/charges.rs:62-85 | Next to a Created answer every other stored answer under the key is Replayed or Conflict by equality with the winner payload |
| `Charges.WinnerExists` | crates/reliableq-db/src/charges.rs:46-64 | Behind every stored answer is a request whose row that is, and it saw Created, or it lost its acknowledgement or failed |
| `Charges.ExactlyOneWinner` | crates/reliableq-db/src/charges.rs:46-85 | If no request with the key lost its acknowledgement or failed, exactly one of them saw Created, and every other stored answer is decided by equality with its payload |
| `Charges.TableOnlyGrows` | crates/reliableq-db/src/charges.rs:46-51 | Rows are never replaced, and an answer once given never changes, inserts that land after a failure answer included |
| `Charges.RunKeepsService` | migrations/0001_init_schema.sql:67-74 | Keys stay unique and amounts positive for any number of interleaved requests |
| `Charges.ChargeTable.InsertOrGetCharge` | crates/reliableq-db/src/charges.rs:38-86 | Run alone: without a row under the key the new row is added and the answer is Created; else the table stays and the answer is the row under the key, Replayed if customer, amount and currency agree and Conflict if one does not |
| `Charges.ChargeTable.CreateCharge` | crates/fake-charge/src/charges.rs:66-106 | The status and the table: 400 without a key or a valid payload, then an injected status, both leaving the table alone; then 201 with the new row, 200 for the same charge again, 409 for another under the key |
| `Idempotency.KeyInjective` | crates/reliableq-core/src/idempotency.rs:10-12 | Different jobs never share a charge key |
| `Idempotency.KeyExactly` | crates/reliableq-core/src/idempotency.rs:10-12 | The key is the prefix and 32 lower-case hex digits that denote the job id, in groups of 8, 4, 4, 4 and 12 |
| `Idempotency.ReadKeyExactly` | crates/fake-charge/src/charges.rs:51-64 | The key read from a header is the header without the whitespace at both ends; a missing or blank header has none |
| `Idempotency.KeyIsReadUnchanged` | crates/fake-charge/src/charges.rs:51-64 | Trimming leaves the key a worker sends as it is |
| `Validation.AcceptedExactly` | crates/reliableq-core/src/validation.rs:63-86 | A payload is accepted if and only if it decodes, from an object or from an array, to a customer id that is not blank and at most 128 bytes, a positive 64-bit amount and three upper-case letters; the request of the worker carries exactly these |
| `Validation.SameVerdictAtEveryStage` | crates/reliableq-core/src/validation.rs:63-86 | A payload accepted once is re-encoded and accepted again with the same content |
| `ExactlyOnce.ActKeepsSys` | crates/reliableq-worker/src/lib.rs:140-327 | Every step of workers, service, database and clock keeps the system invariant: workers agree with the rows they claimed, and every request and every charge is for an existing job with its payload |
| `ExactlyOnce.AtMostOneCharge` | crates/reliableq-worker/src/lib.rs:140-437 | After every schedule from the start, with crashes, stale workers, late requests, lost responses, injected answers of any status and operator retries, a job has at most one charge row and that row carries its own payload |
| `ExactlyOnce.SubmittedIsCharged` | crates/reliableq-db/src/jobs.rs:85-95 | From any reachable state, once a step submits a job, in every later state its payload is the one submitted and every charge under its key is for that customer, amount and currency |
| `ExactlyOnce.ChargedStep` | crates/reliableq-worker/src/lib.rs:212-214 | One step keeps every SUCCEEDED job charged if and only if it is not a success finalized by the current holder for a job without a charge |
| `ExactlyOnce.ChargedExactly` | crates/reliableq-worker/src/lib.rs:140-327 | Every SUCCEEDED job is charged in every state of a schedule if and only if no step of it is such a finalizer |
| `ExactlyOnce.RealExactly` | crates/reliableq-worker/src/lib.rs:417-419 | The root cause: in every state each SUCCEEDED job, and each job whose worker is about to report success, has a charge, if and only if no worker is given an injected success status while its job has none |
| `ExactlyOnce.SucceededIsCharged` | crates/reliableq-worker/src/lib.rs:213 | From the start, without such an answer, a SUCCEEDED job has a charge row |
| `ExactlyOnce.FalseSuccessSurfaces` | crates/fake-charge/src/charges.rs:75-81 | Such an answer to the current holder is one step from a SUCCEEDED job without a charge |
| `ExactlyOnce.FalseSuccessHappens` | crates/fake-charge/src/charges.rs:75-81 | A schedule from the start that ends so |
| `Protocol.StepIsDbRun` | crates/reliableq-worker/src/lib.rs:212-326 | Every system step is at most one transaction of the open queue machine, so all its theorems apply |
| `Worker.ExecuteCharge` | crates/reliableq-worker/src/lib.rs:374-437 | An invalid payload is a permanent failure and a lost call an ambiguous one; of an answer, 2xx is a charge, 408, 429 and 500..599 are temporary and all else is permanent, with one code for each; a row with the job key and payload is added exactly if the request was served and nobody had used the key |
| `Worker.ExecuteAndFinalize` | crates/reliableq-worker/src/lib.rs:140-327 | By the payload, the fate of the call, the status code, the attempts left, the crash points and whether the job is still held after others acted: SUCCEEDED, PENDING again after exactly the delay drawn, DEAD of its budget, DEAD with the code of the failure, or nothing changed; with every column of both rows, and the charge table |
| `Decisions.FinishDecides` | crates/reliableq-worker/src/lib.rs:212-326 | In the whole system, a worker that still holds its job makes it SUCCEEDED, PENDING at now + delay with the code and delay of its failure, or DEAD with the budget code or its own, by the kind of its result and the attempts the row has left then; one that lost it changes nothing |
| `Decisions.StatusDecides` | crates/reliableq-core/src/failure.rs:28-34 | From the answer to the job row: the status code alone decides, 2xx for SUCCEEDED, 408, 429 and 500..599 for another attempt while one is left, everything else for DEAD |
| `Decisions.LossDecides` | crates/reliableq-worker/src/lib.rs:407-415 | Without an answer the job gets another attempt while one is left, and says that the service was unreachable |
| `Decisions.RefusalDecides` | crates/reliableq-worker/src/lib.rs:380-384 | A payload that does not pass makes the job DEAD with INVALID_PAYLOAD whatever attempts are left, and nothing is sent |
| `Decisions.FailpointDecides` | crates/reliableq-worker/src/lib.rs:180-210 | The failpoint in the middle of finalizing acts as if no attempt were left |
| `Worker.ExecutionIsSchedule` | crates/reliableq-worker/src/lib.rs:140-437 | Every execution of that method, from any state in which the worker holds its claim, is a schedule of the whole system with the same effect on queue and charges |
| `Reasons.WorkersKeepBudget` | crates/reliableq-worker/src/lib.rs:238 | A worker that reschedules always leaves budget behind, so only an operator retry can fail to |
| `Reasons.OnlyRetriesStrand` | crates/reliableq-worker/src/lib.rs:238-252 | In every state of a schedule no PENDING job is without budget, if and only if every operator retry that takes effect grants budget |
| `Reasons.ReasonsStep` | crates/reliableq-worker/src/lib.rs:180-210 | One step keeps the budget-exhaustion codes true if and only if it is not the failpoint firing for the current holder after a retryable failure before the last attempt |
| `Reasons.BudgetCodesAreTrue` | crates/reliableq-worker/src/lib.rs:283-288 | In every state of a schedule both budget-exhaustion codes imply DEAD with attempts = max_attempts, if and only if no step misreports in that way |
| `Reasons.ProductionNeverMisreports` | crates/reliableq-worker/src/lib.rs:112-130 | The production path, which has no failpoint, never does |
| `Reasons.FailpointMisreports` | crates/reliableq-worker/src/lib.rs:180-210 | A misreporting step writes RETRY_BUDGET_EXHAUSTED on a job with budget left |
| `Reasons.MisreportHappens` | crates/reliableq-worker/src/lib.rs:180-210 | A schedule from the start that ends so |
| `Reasons.NeverConflicts` | crates/fake-charge/src/charges.rs:102-104 | The service never answers 409 to a worker |
| `Reasons.OnlyBudgetDeaths` | crates/reliableq-worker/src/lib.rs:283-325 | With submitted payloads checked and failure injection off, a DEAD job only carries a budget-exhaustion code |
| `Reasons.DeadMeansSpent` | crates/reliableq-worker/src/lib.rs:283-325 | Both together from the empty system, without misreports: DEAD means a budget code and the whole budget spent |
| `Explanations.CodesExplained` | crates/reliableq-db/src/jobs.rs:180-202 | After every schedule: a DEAD job carries LEASE_EXPIRED_BUDGET_EXHAUSTED if and only if its last attempt is LEASE_LOST, and else the code of that attempt; a SUCCEEDED job carries none, a rescheduled job that of the attempt that rescheduled it, a job retried by an operator none |
| `Backoff.SaturatingPow` | crates/reliableq-core/src/retry.rs:51-60 | The loop with its early break returns min(base^exponent, 2^32 - 1) |
| `Backoff.ComputeCap` | crates/reliableq-core/src/retry.rs:31-36 | For any policy and attempt number, zero included, the method returns the formula with its 32-bit and duration saturations |
| `Backoff.CapExact` | crates/reliableq-core/src/retry.rs:31-36 | For every validated configuration the cap is min(max_delay, base * multiplier^(n-1)) over the integers |
| `Config.ValidatedExactly` | crates/reliableq-core/src/config.rs:263-348 | The configurations that startup accepts, bound by bound |
| `Backoff.CapMonotone` | crates/reliableq-core/src/retry.rs:27-36 | The cap never decreases with n and never exceeds max_delay |
| `Backoff.CapMillisBound` | crates/reliableq-core/src/config.rs:312-337 | In milliseconds the cap is the mathematical one of the configured milliseconds, so conversion loses nothing |
| `Backoff.Delay` | crates/reliableq-core/src/retry.rs:40-48 | A delay lies in [0, cap], and is the value drawn unless the cap is zero |
| `Delays.NeverClaimedEarly` | crates/reliableq-db/src/jobs.rs:349 | Attempts of a job never overlap, and none starts before the end of the previous one plus its scheduled delay |
| `Delays.SpansAttempts` | crates/reliableq-db/src/jobs.rs:223-228 | Over every run a job started when its first attempt did, replays and reclaims included, and a SUCCEEDED job ended when its last attempt did |
| `Delays.TotalBackoffBounded` | crates/reliableq-worker/src/lib.rs:238-252 | Over every schedule with a validated configuration the delays scheduled for a job sum to at most the caps of its rescheduled attempts, hence to their count times max_delay |
| `Heartbeat.Exclusive` | crates/reliableq-worker/src/lib.rs:332-367 | If no stretch between renewals reaches the lease duration, the lease stays live through a run of any length and no claim takes the job |
| `Heartbeat.ExclusiveExactly` | crates/reliableq-worker/src/lib.rs:339-343 | When no renewal fails, a worker keeps its job in every run, neither reclaimed nor buried, if and only if interval plus latency is less than the lease |
| `Heartbeat.NeverReclaimedDespiteFailures` | crates/reliableq-worker/src/lib.rs:359-363 | If two rounds are shorter than the lease, no single failed renewal in a row loses the job, for ever |
| `Heartbeat.Interval` | crates/reliableq-worker/src/lib.rs:339 | A third of the lease rounded down, but at least 100 ms |
| `Heartbeat.ConfiguredBounds` | crates/reliableq-core/src/config.rs:281-291 | For configured leases, which are whole seconds, those bounds are latency below two thirds, and below a sixth, of the lease |
| `Heartbeat.ClaimsDisjointWhileLive` | crates/reliableq-db/src/jobs.rs:214-217 | No later claim takes a job before its lease runs out |
| `Heartbeat.RenewUntilAborted` | crates/reliableq-worker/src/lib.rs:341-366 | The loop with anything else happening between its renewals: it renews once per successful round, and stops early exactly at the first renewal that reaches the database and finds the lease gone |
| `Heartbeat.LossIsFinal` | crates/reliableq-db/src/jobs.rs:504 | A lease found held in one round was held after every earlier round |
| `Poll.BoundedConcurrency` | crates/reliableq-worker/src/poll.rs:46-128 | Permits are conserved, at most min(concurrency, 10) claimed jobs are in flight, each finds a permit free, and every claim is made at full capacity |
| `Poll.NoClaimAfterShutdownTaken` | crates/reliableq-worker/src/poll.rs:99-127 | Once a shutdown branch is taken no claim follows |
| `Poll.ClaimAfterShutdownFired` | crates/reliableq-worker/src/poll.rs:24-28 | Before that, every state with the shutdown fired can still reach a claim |
| `Poll.WaitsHearShutdown` | crates/reliableq-worker/src/poll.rs:75-127 | Every step from the top leads to a wait that hears the shutdown: idle, where the loop then returns, or with a batch, where it drains |
| `Poll.ShutdownIsTheOnlyEnd` | crates/reliableq-worker/src/poll.rs:46-128 | The loop returns only after a shutdown fired |
| `Pagination.ListedLexicographically` | crates/reliableq-db/src/jobs.rs:132 | In the listing creation times rise, and ids rise among equal creation times |
| `Pagination.RowsExactly` | crates/reliableq-db/src/jobs.rs:127 | The listed rows are all jobs with the wanted status, or all jobs |
| `Pagination.BeyondExactly` | crates/reliableq-db/src/jobs.rs:128-131 | After a cursor come the rows with a later creation time, or the same one and a greater id |
| `Pagination.PageExactly` | crates/reliableq-api/src/jobs.rs:230-235 | A page holds the first rows after the cursor, at most limit of them and in order; a full page, and only that, has a next cursor, its last row |
| `Pagination.AfterFullPage` | crates/reliableq-api/src/jobs.rs:230-235 | After a full page the rows beyond its cursor are exactly the rest of the ordered list |
| `Pagination.WalkIsWholeTable` | crates/reliableq-api/src/jobs.rs:216-242 | On a fixed table following next_cursor ends, and the pages joined are the whole filtered table in order |
| `Pagination.RunsGrow` | crates/reliableq-db/src/jobs.rs:124-134 | No run of transactions removes a job or changes its creation time |
| `Pagination.EachRowExactlyOnce` | crates/reliableq-api/src/jobs.rs:216-242 | With no status filter and any run of queue transactions between pages, every row of the first table is listed exactly once |

## Left out

- HTTP routing, extractors, error envelopes, correlation ids, health probes, metrics, tracing and redaction: no state that any guard reads.
- sqlx, pooling, the migrations runner and PostgreSQL internals: row locks appear only as a set of rows that a claim skips in its second and third statements.
- Visibility of uncommitted data: whole transactions never see any. The split claim over-approximates, since each of its statements is visible to others at once.
- Columns no guard reads: `kind`, `version`, `updated_at`, `duration_ms` and error messages; `kind` is checked at submission and then dropped.
- JSON, UUID and RFC 3339 text and base64url: assumed to round-trip, so a page cursor is the pair (created_at, id) itself.
- The range check 1..200 on the page limit: every limit of at least 1 is covered.
- Floating-point seconds in finalize and renew: whole milliseconds instead.
- Randomness: jitter is any value in its range, not a distribution.
- Environment parsing, the URL check of the worker configuration, other services' configuration, binaries, scripts.
- Chaos modes and in-flight counters of the charge service: it may answer any request with any status without serving it, delay it or lose its response.
- Clients of the charge service other than workers: they could use a job's key with another payload.
- The benchmark crate, except the invariants its correctness gate lists.
- The poll loop as a method: it runs until an outside signal, so it is a state machine over its own steps (`Poll`), in which a failed claim is one that returns nothing and an abandoned batch is a return that touches no table.
- List queries as methods: they only read, and are functions of the table.
- A NUL character in a charge request: the charges table would refuse it with a server error; a stored job has none.
- Other fields of a payload object, which the decoder ignores; a NUL in one of them would also make the database refuse the job.
- Ties in the order of a claim: either row may come first, and the scan that finds the first row is not PostgreSQL's.
- Finalizers of other workers during `Worker.ExecutionIsSchedule`: they are those workers' own steps of the schedule, while the method alone takes any transactions.
