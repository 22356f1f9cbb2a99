# Verification of the gateway core

A Dafny model of five parts of the knowledge-base gateway, with proofs of what
they promise over whole runs. `dafny verify dfyconfig.toml` checks the project.

## What is modelled

**Background jobs.** `JobStore` is the lease-based queue as a state machine, one
atomic step per store operation; `MemoryStore` is the mutex-guarded store object
proved against it. `JobProtocol` puts any number of worker executions, the recovery
sweep, cancellations and other traffic on top of that store, the accounting books
and the audit trail, one atomic step at a time; store calls may fail before or after
their statement landed, and a crash is an execution that takes no further step.
`WorkerPool` is the worker's, the sweep's and the cancel handler's control flow,
proved to take only steps of that protocol. Over its runs: one terminal outcome and
exact attempt accounting (`JobRuns`, `JobAttempts`), leases, backoff and stored results
on the jobs' own fields (`JobFields`), no starvation with an explicit measure
(`JobFairness`), idempotent creation (`JobCreation`), one audit record per
terminal transition (`JobAudit`), one charge per job (`JobMoney`), and agreement of
the counters with the ledger (`JobLedger`, `JobWitness`).

**Money.** `Cost` is the checked int64 price computation, `Budget` the four-counter
gate, `RedisBudget` its two scripts as a refinement, `Ledger` the conditional
updates of the usage ledger, `Accounting` the composite reservation, `Admission` the
synchronous acquisition of limiter slot, token quota and money.

**Streaming.** `Streams` is the event vocabulary, `OpenAIStream` the adapter's loop,
`ChatEncoder` and `ResponsesEncoder` the two SSE encoders, `StreamService` the retry
and failover loop and the end-to-end theorems. `UpstreamFidelity` compares the adapter
with what the upstream's chunks say, `SseClients` reads the events back from the
clients' frames, and `StreamFailover` says when the loop goes on and when it stops.

**Retention and export.** `Archive` is select, archive, verify, delete as a machine
with crashes and concurrent row changes, `ArchiveAge` how old deleted rows are,
`RetentionSweeper` the code; `Export` is the
keyset-paged walk against its one-shot answer.

**Two bounded cores.** `Limiter` and `Utf8Shard`.

Code that changes state is modelled by classes and loops whose contracts name a
specification function; the theorems are about those functions and their runs.

## Where the code differs from its documentation

Each of these is a theorem here; the model follows the code.

- A budget check can wrap: beyond int64 it admits over the cap
  (`Budget.OversellBeyondInt64`; exact condition `Budget.AdmissionWithinLimits`).
- Cost is documented for counts that are not negative, but a negative reasoning count
  is passed on to it. Its answer is then wrong exactly when the class has a positive
  price (`Cost.CostExactIff`). Such usage is never charged: the ledger's column checks
  reject the settlement, so its row stays reserved and the counters keep the estimate
  (`Accounting.NegativeUsageNeverSettles`).
- Settle and release are called mutually exclusive; after a failed release a
  settlement still lands, with the counters already refunded
  (`Accounting.BooksAgreeIff`, `Accounting.FailedReleaseThenSettle`).
- `ErrBudgetConfig` never reaches the callers that classify it, because it is only
  quoted in the error that wraps it (`Accounting.PolicyConflictIsMasked`); a worker
  therefore hands such a job back free (`JobProtocol.ConflictIsHandedBackFree`).
- The attempt bound needs distinct owners in flight. All loops of a pool share one
  WorkerID, and then it fails (`JobAttempts.SharedOwnerBreaksBound`; exactly when in
  `JobAttempts.BoundedIff`).
- The ledger's unique index is on the coalesced key, and a client may choose a request
  identifier that is some job's: whichever is settled first excludes the other
  (`Ledger.CoalescedKeysCollide`, exactly when in `JobLedger.BothBooksAgree`, a run in
  `JobWitness.StolenNameLosesTheRow`). A second settlement of one job leaves its row
  reserved for ever too (`JobLedger.LeftoverRows`, `JobLedger.LeftoversStay`, a run in
  `JobWitness.TwoSettlementsLeaveARow`).
- The archive sink's durability contract holds for process crashes. It syncs files but
  not their directory, so after a power failure a deleted row may be in no archive
  (`RetentionSweeper.PowerLossCanLoseTheArchive`; exactly when in
  `Archive.RollbackIff` and `Archive.PowerLossIff`).
- The sharding loop is called rune-safe; on malformed text it can stall, for ever if
  nothing stops it, or read below the start (`Utf8Shard.EndingIff`). The texts the mock
  provider passes come out of decoded or marshalled JSON, so they are well-formed.
- A page boundary on a row with the zero time restarts an export walk
  (`Export.ExportExactIff`).

## Model

| member | source | states |
|---|---|---|
| `MemoryStore.MemoryStore.constructor` | internal/async/memory.go:50-55 | a new store is the empty state |
| `MemoryStore.MemoryStore.Create` | internal/async/memory.go:61-107 | replay, conflict, missing job, duplicate id or fresh job, and the whole new state; an expired mapping is dropped even if creation then fails |
| `MemoryStore.MemoryStore.Get` | internal/async/memory.go:110-119 | lazy expiry stamped with the store clock, and the job after it |
| `MemoryStore.MemoryStore.Cancel` | internal/async/memory.go:133-154 | only queued and running jobs are cancelled; the outcome says which, a terminal job is a no-op |
| `MemoryStore.MemoryStore.OrderedIds` | internal/async/memory.go:401-414 | exactly the given records, oldest first, ties by identifier |
| `MemoryStore.MemoryStore.Claim` | internal/async/memory.go:160-190 | claims the first visible queued job in queue order if there is one, with the new lease, and nothing otherwise |
| `MemoryStore.HeadIsNext` | internal/async/memory.go:176-182 | the head of the sorted visible jobs is the unique job to claim |
| `MemoryStore.MemoryStore.Heartbeat` | internal/async/memory.go:193-202 | extends the lease exactly when status and owner match |
| `MemoryStore.MemoryStore.CommitSuccess` | internal/async/memory.go:206-227 | compare-and-set on (running, owner): wins exactly when both hold, and the completed record |
| `MemoryStore.MemoryStore.CommitFailure` | internal/async/memory.go:230-251 | the same for a failure |
| `MemoryStore.MemoryStore.Requeue` | internal/async/memory.go:255-270 | running back to queued under the same compare-and-set, with attempt count and visibility |
| `MemoryStore.MemoryStore.RecoverExpiredLeases` | internal/async/memory.go:273-311 | fails the exhausted leases that ended before the sweep and requeues the others; both reports are exactly those jobs in queue order |
| `MemoryStore.MemoryStore.ExpireDueResults` | internal/async/memory.go:314-331 | expires exactly the due results and counts them |
| `MemoryStore.MemoryStore.SweepExpiredIdempotencyKeys` | internal/async/memory.go:369-380 | drops exactly the expired mappings and counts them |
| `JobStore.Next` | internal/async/memory.go:166-183 | the job to claim is visible and precedes every other visible job; none only if none is visible |
| `JobStore.NextIsUnique` | internal/async/memory.go:176-182 | no two jobs are next |
| `JobStore.StepFiled` | internal/async/memory.go:61-397 | no operation drops a job or files it under another identifier |
| `JobFields.SweepTakesEndedLeases` | internal/async/memory.go:281-309 | on the fields: a sweep changes a job if and only if it runs under a lease that ended before the sweep; then an attempt is spent, and the last one fails it with the lease-lost result, otherwise it is queued and visible at once |
| `JobFields.SweepReportsWhatItFails` | internal/async/memory.go:285-300 | the jobs reported as failed are exactly those a sweep turns from running to failed |
| `JobFields.LeaseIsHonoured` | internal/async/memory.go:193-202 | over runs: a job whose owner claims or heartbeats until t at least is changed by no sweep at or before t |
| `JobFields.ClaimTakesTheOldest` | internal/async/memory.go:160-190 | on the fields: a claim leases one queued job whose delay is over, no such job being older, and changes nothing else; none only if there is none |
| `JobFields.BackoffIsKept` | internal/async/memory.go:166-172 | over runs: a job returned until t is not running again before a claim at t or later |
| `JobFields.FreshJobs` | internal/async/memory.go:61-107 | on the fields: when a creation makes a job, and that it is queued, unspent and claimable at once |
| `JobFields.KeysLiveUntilTheirExpiry` | internal/async/memory.go:369-380 | the key sweep keeps a mapping up to and including its expiry and drops it after |
| `JobFields.ReturnByOwner` | internal/async/memory.go:255-270 | only the running owner returns a job; the delay and the attempt are as asked |
| `JobFields.HeartbeatByOwner` | internal/async/memory.go:193-202 | a heartbeat of the running owner moves the lease to now plus its length and touches nothing else |
| `JobFields.CancelEndsLiveJobs` | internal/async/memory.go:133-154 | a cancellation ends exactly a queued or running job and keeps its attempts |
| `JobFields.ExpiryIsByRetention` | internal/async/memory.go:314-331 | a completed or failed job loses its result at the first read or sweep after its retention, and not before |
| `JobFields.StoredResultIsTheWinners` | internal/async/memory.go:206-311 | over every run: a completed or failed job holds, until it expires, the response, class, retention and request of the one commit (or lost lease) that ended it, and no other job holds a result |
| `JobRuns.StepEdges` | internal/async/memory.go:133-331 | the only status transitions any operation makes, and what never changes after creation |
| `JobRuns.StepAccounts` | internal/async/memory.go:133-331 | per operation: terminal entries, claims, returns and attempts balance |
| `JobRuns.RunAccounts` | internal/async/memory.go:133-331 | every run: one terminal outcome per job, expiry at most once and only after it, claims = charged + free returns + the one held or ended with, attempts = charged returns |
| `JobRuns.TerminalForever` | internal/async/memory.go:206-331 | a terminal job is never queued or running again; cancelled stays cancelled; attempts and final request id are frozen |
| `JobRuns.StepBounded` | internal/async/memory.go:255-311 | guarded operations keep every live job below the maximum of attempts |
| `JobRuns.ChargedReturnKeepsBoundIff` | internal/async/worker.go:706-726 | a charged return keeps the attempt bound if and only if the stored count passes the guard |
| `JobFairness.ClaimTakesAnOlderJob` | internal/async/memory.go:160-190 | a claim that passes over a visible job takes an older one: no blocking by backed-off jobs, no overtaking |
| `JobFairness.WaitStep` | internal/async/memory.go:160-190 | each claim that passes a job over uses up one unit of its waiting measure, and nothing adds to it |
| `JobFairness.NoStarvation` | internal/async/memory.go:160-190 | absent free returns, a visible queued job is passed over at most (sum over older live jobs of their remaining attempts) times |
| `JobFairness.FreeReturnsStarve` | internal/async/memory.go:255-270 | with free returns there is no bound: for every n a run in which n claims pass over a visible job whose measure is one |
| `JobCreation.MapKeyInjective` | internal/async/memory.go:65-66 | subject and key hash are determined by the mapping key when hashes hold no NUL |
| `JobCreation.MapKeyCollision` | internal/async/memory.go:65-66 | with a NUL in the hash two subjects share one mapping |
| `JobCreation.RunPointsHome` | internal/async/memory.go:61-107 | in every run mappings point to existing jobs of their own subject |
| `JobCreation.ReplayWindow` | internal/async/memory.go:61-107 | from a fresh create until its mapping expires (end included), whatever runs in between: same digest replays that job, another digest conflicts, nothing is created |
| `JobCreation.WindowCloses` | internal/async/memory.go:67-71 | after the expiry the same key creates afresh |
| `JobCreation.SweepsAreInvisible` | internal/async/memory.go:369-380 | removing key sweeps from any run changes no creation outcome and no job |
| `JobProtocol.StepKeepsFiled` | internal/async/worker.go:407-597 | every protocol step keeps records under their own id and never drops a job |
| `WorkerPool.EveryPathFinalizesOnce` | internal/async/worker.go:407-754 | every path makes exactly one store decision, audits only after a won commit, and finalizes its reservations exactly once |
| `WorkerPool.ChargedReturnsAreGuarded` | internal/async/worker.go:435-461 | a charged return only while another attempt is left |
| `WorkerPool.OutcomeFollowsAnswer` | internal/async/worker.go:640-754 | past the gates and the money: a terminal outcome completes the job if and only if the answer can be delivered, with its usage; charged hand-back if and only if a retry-eligible error has an attempt left; free hand-back if and only if aborted |
| `WorkerPool.GatesDecide` | internal/async/worker.go:416-557 | before that: exactly which obstacle spends an attempt, which returns the job free, and which fails it; nothing completes |
| `WorkerPool.HandoffFollowsTheCommit` | internal/async/worker.go:878-943 | after the commit: who audits, who looks for a cancellation, who settles (twice exactly after a failed first try), and who refunds |
| `WorkerPool.SweepDoesAllThree` | internal/async/worker.go:317-374 | one sweep pass, on the fields: ended leases recovered, due results dropped, expired mappings reclaimed, nothing else touched |
| `WorkerPool.CancelReadsFirst` | internal/httpapi/async.go:468-535 | a cancel request, on the fields: a due result is dropped by the read, and exactly a queued or running job is cancelled |
| `WorkerPool.Pool.RunJob` | internal/async/worker.go:407-597 | one claimed job end to end under arbitrary interference: exactly the prescribed steps, each allowed by the protocol; when its commit won, some moment of the run stores the job with its result, completed if every gate passed and the answer was deliverable and failed otherwise |
| `WorkerPool.Pool.Conclude` | internal/async/worker.go:584-596 | abort, retry, failure or answer: what follows the provider call; a won commit stored the job completed exactly for a deliverable answer |
| `WorkerPool.Pool.Take` | internal/async/worker.go:407-597 | one step of an execution must be one the protocol allows, and is that step |
| `WorkerPool.Pool.PassGates` | internal/async/worker.go:416-507 | decode, re-admission, limiter, limits and quota outcomes: go on unchanged, or the prescribed failure or hand-back |
| `WorkerPool.Pool.ReserveMoney` | internal/async/worker.go:509-557 | money gate: executing, or ended by failure or free hand-back |
| `WorkerPool.Pool.RetryOrFail` | internal/async/worker.go:433-461 | an attempt is spent only while one is left, else the job fails |
| `WorkerPool.Pool.CommitFailure` | internal/async/worker.go:842-860 | pre-execution failure: unencodable, lost, won and audited, always ended |
| `WorkerPool.Pool.Requeue` | internal/async/worker.go:815-834 | hand-back under the recorded owner ends the execution |
| `WorkerPool.Pool.GiveBack` | internal/async/worker.go:706-730 | abort and retry refund before they hand back |
| `WorkerPool.Pool.Finish` | internal/async/worker.go:640-754 | terminal commit followed by the handoff; a won commit stored the result |
| `WorkerPool.Pool.Commit` | internal/async/worker.go:656-700 | won exactly when the compare-and-set held, and then the store holds the decided job; an error or a loss leaves the execution where the handoff expects it |
| `WorkerPool.Pool.Handoff` | internal/async/worker.go:878-917 | error drops, loss drops unless a cancellation won after usage, the winner settles and then audits |
| `WorkerPool.Pool.SettleObserved` | internal/async/worker.go:925-943 | at most one retry, then the winner goes on to its audit record |
| `WorkerPool.Pool.JobCancelledNow` | internal/async/worker.go:960-968 | yes exactly when the read succeeds and the job is cancelled |
| `WorkerPool.Pool.ClaimOne` | internal/async/worker.go:291-312 | an execution starts exactly when some job was claimable |
| `WorkerPool.Pool.SweepOnce` | internal/async/worker.go:317-374 | recovers, expires and reclaims in that order, and audits exactly the jobs it failed |
| `WorkerPool.Pool.CancelJob` | internal/httpapi/async.go:468-535 | reads with lazy expiry, cancels, and audits exactly when the job was live and the answer arrived |
| `JobAudit.TerminalChange` | internal/async/memory.go:133-311 | which statements end which jobs |
| `JobAudit.StepRecords` | internal/async/worker.go:878-917 | every protocol step keeps records written + owed + lost = terminal entries, job by job |
| `JobAudit.RunBalanced` | internal/async/worker.go:878-917 | the same in every run, store faults included |
| `JobAudit.AuditedExactlyOnce` | internal/httpapi/async.go:503-533 | never two audit records, none before the job ended, exactly one once every winner has taken its steps and no answer was lost |
| `JobMoney.RefundEffect` | internal/async/worker.go:612-619 | a refund zeroes its own reservation, ledger fault or not, and touches no other |
| `JobMoney.AdmissionEffect` | internal/async/worker.go:509-557 | an admission charges a brand-new reservation of a positive amount |
| `JobMoney.SettlementEffect` | internal/async/worker.go:625-633 | a settlement leaves the exact cost, or the estimate when it is unknown; a failed one leaves everything |
| `JobMoney.PaysForWhatItSaw` | internal/async/worker.go:625-633 | a settlement that lands leaves on the counters and on the row the exact cost of the usage the provider reported; with no usage, or none that can be priced, the estimate and no cost; a failed one leaves everything |
| `JobMoney.ReservesForItsJob` | internal/async/worker.go:509-532 | an execution's reservation is a row of its own job and a charge on its own subject's and tenant's capped counters |
| `JobMoney.MoneyStep` | internal/async/worker.go:407-943 | every protocol step keeps the money invariant of every execution |
| `JobMoney.OneWinnerStep` | internal/async/worker.go:878-917 | at most one execution per job wins its commit |
| `JobMoney.JobIsChargedOnce` | internal/async/worker.go:558-943 | a finished job whose executions ended holds on the counters exactly the winner's cost (estimate if unknown), nothing if nobody won |
| `JobMoney.LosersAreRefunded` | internal/async/worker.go:878-917 | while a job lives, each ended execution of it is refunded in full |
| `JobMoney.CountersConserved` | internal/accounting/memory.go:39-117 | through all protocol runs and other traffic each counter equals, at every moment, the live estimates plus settled costs, if and only if those never exceed int64 |
| `JobLedger.SettledRows` | internal/store/pg/ledger.go:130-170 | what a settlement does to the row counts of every job: it settles a row if and only if the job has no settled row and no settled request carries its name |
| `JobLedger.ReleasedRows` | internal/store/pg/ledger.go:174-186 | what a release does to them |
| `JobLedger.WinnerSettlesFirst` | internal/store/pg/ledger.go:147-149 | the commit winner never meets an already settled row of its own job |
| `JobLedger.BothBooksAgree` | internal/store/pg/ledger.go:91-186 | without accounting faults, under any traffic: a finished job with a reserving winner has one row left, settled at the cost its counters keep if and only if no settled request carries the job's name, and reserved otherwise |
| `JobLedger.LeftoverRows` | internal/store/pg/ledger.go:147-149 | once a job's executions have ended, every settlement but the first leaves one row reserved, and so does the first if the job's name is taken |
| `JobLedger.LeftoversStay` | internal/store/pg/ledger.go:130-186 | and those rows stay reserved in every continuation |
| `JobWitness.TwoSettlementsLeaveARow` | internal/async/worker.go:878-917 | a run without faults in which two executions of a cancelled job both settle and one row is left reserved |
| `JobWitness.StolenNameLosesTheRow` | internal/httpapi/chat.go:379-385 | a run without faults in which a client's request identifier equals a job's: the job completes, settles without error, and has no settled row |
| `JobAttempts.StoreFollowsTrace` | internal/async/worker.go:407-943 | the protocol's store is a run of the store operations it commits |
| `JobAttempts.StepCurrent` | internal/async/worker.go:291-312 | with distinct owners an execution that still owns its job has a current snapshot |
| `JobAttempts.BoundedIff` | internal/async/worker.go:706-726 | owners shared or not: no live job reaches the maximum of attempts at any moment of a run if and only if every charged return that lands meets a stored count that leaves an attempt |
| `JobAttempts.DistinctOwnersPass` | internal/async/worker.go:291-312 | distinct owners in flight are enough for that |
| `JobAttempts.RunBounded` | internal/async/worker.go:435-461 | with distinct owners in flight no live job reaches the maximum of attempts |
| `JobAttempts.AttemptAccounting` | internal/async/worker.go:706-726 | with distinct owners: attempts = charged returns < maximum while live, never above it, and claims balance |
| `JobAttempts.SharedOwnerBreaksBound` | internal/async/worker.go:293-295 | a run with one shared WorkerID where a stale return leaves a queued job at the maximum |
| `Cost.MulAddExact` | internal/accounting/accounting.go:174-186 | one accumulation, for every int64 count: it adds the exact product, or for a negative count the product modulo 2^64, and refuses exactly when that leaves int64 |
| `Cost.CostIsExact` | internal/accounting/accounting.go:129-163 | for amounts: succeeds exactly when every reported class is priced, cached <= prompt and the true total fits, and then returns it |
| `Cost.CostExactIff` | internal/accounting/accounting.go:97-163 | for every int64 count: what is answered, and an answer is the true total if and only if no class with a positive price has a negative count |
| `Cost.NegativeCountCanAddNothing` | internal/accounting/accounting.go:97-105 | a negative reasoning count, which the conversion passes on, answered as zero |
| `Budget.KeysDistinct` | internal/accounting/memory.go:110-117 | the four counters of one request are distinct |
| `Budget.KeysInjective` | internal/accounting/memory.go:110-117 | two requests share a counter only for the same position, identity and period |
| `Budget.FirstRefusal` | internal/accounting/memory.go:47-55 | the first capped counter the estimate would push over its limit |
| `Budget.CapsGuardTheirCounters` | internal/accounting/memory.go:39-66 | with the counter names written out: the first of subject day, subject month, tenant day and tenant month whose own cap the estimate exceeds names the denial |
| `Budget.GrantChargesTheCapped` | internal/accounting/memory.go:56-66 | a grant holds the estimate on exactly the counters whose own cap is set |
| `Budget.StepConserves` | internal/accounting/memory.go:39-117 | a call keeps every counter equal to what is charged to it if and only if no counter it changes leaves int64, read off before the call |
| `Budget.RunConserves` | internal/accounting/memory.go:39-117 | every run of reserve, settle and release keeps each counter, at every moment, equal to what is charged to it if and only if no call pushes a counter out of int64 |
| `Budget.AdmissionWithinLimits` | internal/accounting/memory.go:47-66 | an admission leaves every capped counter within its limit if and only if no capped counter left int64 in the check |
| `Budget.OversellBeyondInt64` | internal/accounting/memory.go:47-66 | two reservations admitted over a cap of 2^63-1 |
| `Budget.AdmissionChargesExactlyTheCapped` | internal/accounting/memory.go:56-66 | the estimate is added, in int64, to every capped counter and to no other |
| `Budget.FirstFinalizationWins` | internal/accounting/memory.go:69-99 | after the first known-cost finalization every further one is the identity |
| `Budget.ReserveReleaseRestores` | internal/accounting/memory.go:39-99 | reserve then release restores the stored counters, wrap-around included, if and only if no charged counter was stored at zero or below |
| `Budget.MemoryBudget.Check` | internal/accounting/memory.go:47-55 | the first refusing counter, else the counters to charge |
| `Budget.MemoryBudget.Reserve` | internal/accounting/memory.go:39-66 | all or nothing: charges every capped counter or changes nothing |
| `Budget.BudgetReservation.Finalize` | internal/accounting/memory.go:69-85 | applies the delta once to the charged counters and drops those that reach zero |
| `Budget.BudgetReservation.Settle` | internal/accounting/memory.go:89-94 | an unknown cost does not use up the finalization |
| `Budget.BudgetReservation.Release` | internal/accounting/memory.go:97-99 | finalizes with minus the estimate |
| `RedisBudget.ReserveRefines` | internal/accounting/redis.go:22-48 | from related states the reserve script gives the same answer as the in-memory gate, for every capped combination, if and only if the first counter over its cap stays in int64; then the counters agree again |
| `RedisBudget.FinalizeRefines` | internal/accounting/redis.go:52-71 | the finalize script applies a delta once per marker, as the gate does per reservation: related states again if and only if no counter of it leaves int64 |
| `RedisBudget.DenialAgrees` | internal/accounting/redis.go:128-140 | same denying scope and period |
| `RedisBudget.RunRefines` | internal/accounting/redis.go:106-179 | every run without expiries: same outcomes, same denials and equal counters after every call, if and only if no denial and no settlement leaves int64 |
| `RedisBudget.FreshGatesAgree` | internal/accounting/redis.go:106-179 | two fresh gates given the same calls answer alike |
| `RedisBudget.Server.EvalReserve` | internal/accounting/redis.go:22-48 | the script's loops over GET and INCRBY compute that step |
| `RedisBudget.Server.EvalFinalize` | internal/accounting/redis.go:52-71 | so do SET NX and the finalize loop |
| `Ledger.Latest` | internal/store/pg/ledger.go:134-141 | the newest reserved row of the identity, if any |
| `Ledger.RunEvolves` | internal/store/pg/ledger.go:91-186 | rows only move reserved to settled or released, final rows are frozen, no two settled rows share an index key |
| `Ledger.OneSettlementPerIdentity` | internal/store/pg/ledger.go:5-9 | an identity has at most one settled row, the same one ever after |
| `Ledger.SettleExactly` | internal/store/pg/ledger.go:130-170 | a settlement settles exactly when a row is reserved for the identity, values are storable and no settled row has its index key; otherwise nothing changes |
| `Ledger.ReleaseExactly` | internal/store/pg/ledger.go:174-186 | a release turns one reserved row into a released one |
| `Ledger.CoalescedKeysCollide` | internal/store/pg/ledger.go:147-149 | identities with one coalesced key exclude each other: once either is settled, the other never is, in any run, and its settlements answer without error |
| `Ledger.EffectivePrice` | internal/store/pg/ledger.go:33-52 | returns the price in force |
| `Ledger.InForceIsUnique` | internal/store/pg/ledger.go:33-52 | no two prices are in force |
| `Ledger.NewestPriceWins` | internal/store/pg/ledger.go:33-52 | a new catalog row takes over from its date on if it is newest by date and version, and changes no price of an earlier time, another model or another provider |
| `Ledger.LedgerStore.FindLatest` | internal/store/pg/ledger.go:134-141 | the newest reserved row of the identity |
| `Ledger.LedgerStore.ReserveLedger` | internal/store/pg/ledger.go:91-106 | inserts one reserved row or nothing |
| `Ledger.LedgerStore.SettleLedger` | internal/store/pg/ledger.go:130-170 | the conditional update and its three answers |
| `Ledger.LedgerStore.ReleaseLedger` | internal/store/pg/ledger.go:174-186 | the conditional release |
| `Accounting.RefusalLeavesNothing` | internal/accounting/accounting.go:480-537 | a refused reservation leaves the ledger as it was, and the counters, even when the check wraps, if and only if a charge it took back met no counter stored at zero or below |
| `Accounting.AdmissionIsCharged` | internal/accounting/accounting.go:480-537 | an admission writes one reserved row, and a configured enforced budget is charged a positive estimate on exactly the capped counters; which amount is in EstimateIsCharged |
| `Accounting.EstimateIsCharged` | internal/accounting/accounting.go:495-522 | an enforced budget: pricing is unavailable if and only if there is no price, its currency differs, or the estimate has no positive cost that fits; an admission charges exactly the true total of price times count; a denial if and only if some cap would be exceeded by it |
| `Accounting.AnyEstimateIsCharged` | internal/accounting/accounting.go:511-522 | for any int64 counts the charge is the true total if and only if no priced class has a negative count |
| `Accounting.ChargedOnlyWhenEnforced` | internal/accounting/accounting.go:487-537 | without enforcement or caps nothing is charged and no price is needed; outages of the policy, the gate or the price refuse and change nothing |
| `Accounting.AdmissionIsItsOwn` | internal/accounting/accounting.go:518-537 | the row carries the request's identity and subject, and the charge sits on its subject's and tenant's capped counters of that day and month |
| `Accounting.SettlementCharges` | internal/accounting/accounting.go:557-614 | a settlement leaves on the counters and the row the exact cost of the reported usage at the price in force, or the estimate and no cost; the row keeps usage, version, currency and time; an error changes nothing |
| `Accounting.SettlementFailsExactlyWhen` | internal/accounting/accounting.go:570-603 | apart from outages a settlement fails if and only if a row waits and has a negative count or a cost without currency |
| `Accounting.PolicyConflictIsMasked` | internal/accounting/accounting.go:428-430 | no error the reservation returns has the configuration sentinel in its chain; a conflict is classified as an outage by the worker and by the handlers; exactly denials and missing prices fail a job, each under its own class |
| `Accounting.UnmaskedConflictIsClassified` | internal/async/worker.go:538-547 | unwrapped or wrapped with %w, the sentinel would be classified by both callers |
| `JobProtocol.ConflictIsHandedBackFree` | internal/async/worker.go:533-554 | a job that meets a conflicting policy can only be handed back free |
| `Accounting.NegativeUsageNeverSettles` | migrations/0007_v1_4_cost_governance.up.sql:53-56 | usage with a negative count never settles a reserved row, whatever Cost makes of it: every retry fails, the row stays reserved and the counters keep what they hold |
| `Accounting.RetryConverges` | internal/accounting/accounting.go:557-614 | failed settlements followed by one call equal that one call |
| `Accounting.ClosedIsFinal` | internal/accounting/accounting.go:553-638 | after the first landed finalization nothing changes |
| `Accounting.FinalAmount` | internal/accounting/accounting.go:553-638 | what the counters hold after any sequence of finalization calls with outages |
| `Accounting.FinalLedger` | internal/accounting/accounting.go:553-638 | of any sequence of finalization calls with outages, only the landing one touches the ledger |
| `Accounting.RefundedForGood` | internal/accounting/accounting.go:618-638 | once finalized the counter amount never moves |
| `Accounting.BooksAgreeIff` | internal/accounting/accounting.go:553-638 | over every sequence of calls with outages: when the landing call settles the row, row and counters agree on the amount if and only if no release failed before it or the amount is zero |
| `Accounting.FailedReleaseThenSettle` | internal/accounting/accounting.go:618-638 | such a sequence exists for every open reservation: a release whose row update fails, then a settlement |
| `Accounting.Gate.Reserve` | internal/accounting/accounting.go:480-537 | the reservation pipeline with rollback against the real gate and store, at the price in force; what it charges is in EstimateIsCharged |
| `Accounting.Reservation.Settle` | internal/accounting/accounting.go:557-614 | row first, then counters; the flag commits only with the row |
| `Accounting.Reservation.Release` | internal/accounting/accounting.go:618-638 | counters first, then the row |
| `Admission.DenialLeavesNothing` | internal/httpapi/common.go:317-436 | every denial gives back the limiter slot and writes no row, and leaves the counters as they were if and only if what it took back met no counter stored at zero or below |
| `Admission.AdmissionHoldsEverything` | internal/httpapi/common.go:317-436 | an admission holds one slot, the token estimate on every capped counter, and the money reservation with its row |
| `Admission.FirstObstacleDenies` | internal/httpapi/common.go:317-436 | the first obstacle in the order of the stages names the denial, the token counters by their own names and caps; a request that meets none is admitted |
| `Admission.AdmissionIsTheCallers` | internal/httpapi/common.go:372-436 | the admitted request's row and charge are its caller's own |
| `Admission.AdmitThenRefund` | internal/httpapi/common.go:212-229 | refunding an admitted request restores the gauges and releases its row, and restores each kind of counter if and only if the charge met none stored at zero or below |
| `Admission.ReserveQuota` | internal/quota/memory.go:39-66 | the token quota reservation |
| `Admission.AdmitAccounting` | internal/httpapi/common.go:372-433 | the money stage with rollback |
| `Admission.AdmitRequest` | internal/httpapi/common.go:317-436 | the three-resource pipeline against the real gates |
| `Limiter.AtMostTwiceTheRate` | internal/limiter/limiter.go:63-85 | any half-open interval of one window length admits at most twice the rate |
| `Limiter.BurstAcrossWindows` | internal/limiter/limiter.go:63-85 | and can admit more than the rate |
| `Limiter.AdmittedExactlyWhen` | internal/limiter/limiter.go:63-85 | with windows told by call times alone: a call is admitted if and only if fewer than the rate were admitted in its own window and fewer than the cap are in flight |
| `Limiter.GaugeCounts` | internal/limiter/limiter.go:63-85 | the gauge is acquired minus released and never above the cap |
| `Limiter.InFlightWithinCap` | internal/limiter/limiter.go:63-85 | requests in flight exceed the cap by at most the surplus releases |
| `Limiter.RetryAfterSuffices` | internal/limiter/limiter.go:98-110 | the advertised wait is the shortest after which the rate no longer denies |
| `Limiter.Limiter.AllowLegacy` | internal/limiter/limiter.go:63-85 | window reset, rate check, cap check, then both counters |
| `Limiter.Limiter.Allow` | internal/limiter/limiter.go:89-95 | the same with its retry-after |
| `Limiter.Limiter.Release` | internal/limiter/limiter.go:80-84 | the release closure |
| `Utf8Shard.CutAtBoundary` | internal/provider/fake.go:231-247 | cutting well-formed text at a rune start leaves well-formed pieces |
| `Utf8Shard.CompletesIff` | internal/provider/fake.go:231-247 | the loop completes if and only if no eight continuation bytes follow one another after the first byte |
| `Utf8Shard.EndingIff` | internal/provider/fake.go:231-247 | it reads below the start if and only if the text starts with nine continuation bytes, and otherwise, if it does not complete, it stalls |
| `Utf8Shard.ShardsAreExact` | internal/provider/fake.go:228-247 | for well-formed text: terminates, fragments non-empty, at most 8 bytes, well-formed, concatenating to the text |
| `Utf8Shard.ReturnsExactlyWhen` | internal/provider/fake.go:231-247 | for well-formed text: it returns with all of it exactly when neither deadline nor refusal falls on a round, and otherwise fails at the earlier one with a prefix |
| `Utf8Shard.FragmentsOf` | internal/provider/fake.go:231-247 | for any bytes what is emitted is a prefix, cut at rune starts, in non-empty fragments of at most 8 bytes |
| `Utf8Shard.MalformedDefeatsIt` | internal/provider/fake.go:238-240 | inputs on which it stalls and on which it reads below the start |
| `Utf8Shard.FindEnd` | internal/provider/fake.go:237-240 | the inner loop |
| `Utf8Shard.Shard` | internal/provider/fake.go:231-247 | the loop with a deadline and a refusing consumer, completely: a stall emits empty fragments until one of them stops it |
| `OpenAIStream.ChunkFaithful` | internal/provider/openai.go:421-481 | after each chunk the accumulators are exactly the deltas emitted |
| `OpenAIStream.ScriptWellEnded` | internal/provider/openai.go:374-523 | completed is emitted once, last, exactly when no error is returned |
| `OpenAIStream.CompletedIsFaithful` | internal/provider/openai.go:500-522 | each args_done and text_done is the concatenation of its own deltas and the completed response has that content |
| `UpstreamFidelity.CompletesExactlyWhen` | internal/provider/openai.go:374-499 | the adapter completes if and only if the stream opened, the terminator came before anything that breaks it, reading did not fail and the deadline holds; otherwise which error |
| `UpstreamFidelity.DeltasAreTheUpstreams` | internal/provider/openai.go:403-482 | completed or broken: the text deltas are the content of the chunks, and the argument deltas the fragments' arguments, call by call in order of first appearance |
| `UpstreamFidelity.ResponseIsTheUpstreams` | internal/provider/openai.go:500-523 | the completed response has the upstream's head, calls with their last identity and all arguments, text, last usage and last finish reason, which decides the status |
| `UpstreamFidelity.ChatClientGetsTheUpstream` | internal/httpapi/chatwire.go:171-263 | what the chat client puts together is the upstream's content and arguments |
| `OpenAIStream.Call.Absorb` | internal/provider/openai.go:421-481 | one chunk against a consumer that may refuse any event |
| `OpenAIStream.Call.AppendFragment` | internal/provider/openai.go:450-477 | finds or opens the call, announces it, appends arguments |
| `OpenAIStream.ReadBody` | internal/provider/openai.go:403-482 | the scan loop over every way a stream can go on or break |
| `OpenAIStream.Close` | internal/provider/openai.go:499-522 | the closing events in order until one is refused |
| `OpenAIStream.Stream` | internal/provider/openai.go:374-523 | delivered events and error are the script's, cut at the first refusal; a read error reported after the terminator wins over completion |
| `ChatEncoder.ClientSeesWhatIsRecorded` | internal/httpapi/chatwire.go:171-263 | for any events the chunks reassemble to the recorded text and arguments |
| `ChatEncoder.ClientSeesOpeningName` | internal/httpapi/chatwire.go:201-222 | concatenating a call's names yields the opening identity |
| `ChatEncoder.CompletedFold` | internal/httpapi/chatwire.go:154-168 | FinalResponse of a completed adapter stream has the adapter's content and finish |
| `ChatEncoder.ChatStreamIsExact` | internal/httpapi/chatwire.go:154-263 | for every chunk sequence: FinalResponse, and what the client reassembles, equal the adapter's response; one finish reason, last |
| `SseClients.ChunkPerEvent` | internal/httpapi/chatwire.go:171-263 | each delta and the completion is one chunk under the announced head with that delta, finish reason and usage; no other event writes |
| `ChatEncoder.ChatStreamEncoder.HandleEvent` | internal/httpapi/chatwire.go:171-263 | one event against the connection |
| `ChatEncoder.ChatStreamEncoder.AppendArguments` | internal/httpapi/chatwire.go:187-222 | argument fragments with identity on the opening one only |
| `ResponsesEncoder.HandleProgress` | internal/httpapi/responseswire.go:194-306 | what one event can do to a stream that has not ended |
| `ResponsesEncoder.ExactlyOneTerminal` | internal/httpapi/responseswire.go:350-360 | exactly one terminal frame, last, completed exactly when all was accepted; at most one on a broken connection |
| `ResponsesEncoder.CompletedMeansValid` | internal/httpapi/responseswire.go:269-300 | a stream with invalid arguments or output is never marked completed |
| `ResponsesEncoder.CompletedMatchesDeltas` | internal/httpapi/responseswire.go:331-345 | the completed frame carries the text and arguments that were streamed |
| `SseClients.ResponsesClientSeesTheDeltas` | internal/httpapi/responseswire.go:194-306 | the frames concatenate to the text and argument deltas of the events, and each call is announced once, at its first delta, with its identity |
| `SseClients.CompletedFrameRepeatsTheFrames` | internal/httpapi/responseswire.go:331-345 | the completed frame repeats the text and arguments of the frames before it |
| `SseClients.EndedCallsAreChecked` | internal/httpapi/responseswire.go:251-284 | an ended call shows the assembled arguments and is refused exactly when they are not a JSON object |
| `SseClients.CompletionIsChecked` | internal/httpapi/responseswire.go:285-302 | the completed frame is the adapter's response under the announced model, refused exactly when its output is invalid |
| `ResponsesEncoder.ResponsesStreamEncoder.Fail` | internal/httpapi/responseswire.go:350-360 | idempotent failure frame |
| `ResponsesEncoder.ResponsesStreamEncoder.AppendArguments` | internal/httpapi/responseswire.go:219-250 | announces the item once, then its fragments |
| `ResponsesEncoder.ResponsesStreamEncoder.EndArguments` | internal/httpapi/responseswire.go:251-284 | validates, records and ends a call, or fails the stream |
| `ResponsesEncoder.ResponsesStreamEncoder.Complete` | internal/httpapi/responseswire.go:285-302 | validates and completes, or fails the stream |
| `ResponsesEncoder.ResponsesStreamEncoder.HandleEvent` | internal/httpapi/responseswire.go:194-306 | one event |
| `StreamService.SingleAttempt` | internal/gateway/service.go:364-423 | all delivered events come from one provider call; success means that call completed fully delivered |
| `StreamFailover.StopsExactlyWhen` | internal/gateway/service.go:386-417 | with the classes written out: a due and permitted try is called and its outcome recorded; its error ends the request if and only if the call delivered an event, the deadline passed, or the class is invalid or internal; otherwise the next try or candidate is due |
| `StreamFailover.WaitStops` | internal/gateway/service.go:387-390 | a failed backoff wait ends the request |
| `StreamFailover.RefusalEndsTheRequest` | internal/gateway/service.go:367-373 | an event the consumer refuses ends the request as internal, with the events before it, and nothing else is called |
| `StreamFailover.ExhaustedExactlyWhen` | internal/gateway/service.go:419-422 | when every candidate gave way: nothing delivered, the last call's error, or no route exactly when no call was permitted |
| `StreamFailover.FirstCompletingCallServes` | internal/provider/provider.go:66-72 | if every earlier permitted call fails silently with a network, rate-limit, server or timeout error, the first permitted call that completes serves the request under its own name with no error |
| `StreamService.PermitsBalance` | internal/gateway/service.go:364-423 | on every path each permit is used for exactly one call of its own provider and returned by its outcome before anything else; success last and once; calls within the retry budget |
| `StreamService.ChatEndToEnd` | internal/gateway/service.go:364-423 | upstream to chat client, whatever the consumer refuses: content equals one adapter's completed response |
| `StreamService.EncoderRefuses` | internal/httpapi/responses.go:452-475 | the Responses encoder as the service's consumer: the event it refuses |
| `StreamService.ResponsesEndToEnd` | internal/httpapi/responses.go:452-475 | upstream to Responses client: one terminal frame, last, completed exactly on success, valid |
| `StreamService.Play` | internal/gateway/service.go:364-380 | a provider call against the emit callback |
| `StreamService.Call` | internal/gateway/service.go:398-409 | a call made under the permit in hand, and the outcome recorded after it |
| `StreamService.TryCandidate` | internal/gateway/service.go:386-417 | the tries of one candidate: wait, permit, call, outcome; no permit is in hand afterwards; when they end is in StreamFailover.StopsExactlyWhen |
| `StreamService.Stream` | internal/gateway/service.go:364-423 | the failover loop over candidates against a consumer that refuses by what it was given, as the run StreamFailover speaks of; no permit is in hand at the end |
| `Archive.RunInv` | internal/lifecycle/sweeper.go:115-216 | the archive invariant over every run of any number of sweepers, crashes and concurrent changes |
| `Archive.ArchivedBeforeDeleted` | internal/lifecycle/sweeper.go:165-206 | every deleted row, cascaded results included, is in a data file with a complete matching manifest |
| `Archive.ManifestImpliesData` | internal/lifecycle/sink.go:34-76 | a manifest on disk implies its full data file at every crash point |
| `Archive.RollbackIff` | internal/lifecycle/sink.go:98-123 | after a power loss that takes the unsynced directory back to an earlier moment manifests still imply data, and every deleted row is still archived if and only if each delete after that moment had its own manifest in place by then, or each row it removed in another archive |
| `Archive.PowerLossIff` | internal/lifecycle/sink.go:98-123 | the same for a directory that lost any of its entries, in any order |
| `RetentionSweeper.PowerLossCanLoseTheArchive` | internal/lifecycle/sink.go:98-123 | a run and a moment for which it is not: a deleted row is in no archive |
| `Archive.NothingLiveIsDeleted` | internal/store/pg/lifecycle.go:184-201 | no live or anchored job and no reserved ledger row is deleted; references stay whole |
| `Archive.LiveRowsSurvive` | internal/store/pg/lifecycle.go:478-506 | a job that stays live and a row that stays reserved survive every run |
| `Archive.BatchDrains` | internal/store/pg/lifecycle.go:204-244 | an undisturbed batch removes exactly the rows it selected |
| `ArchiveAge.EligibleExactly` | internal/store/pg/lifecycle.go:184-201 | on the columns: created before the cutoff, a job ended and referred to by no ledger row, a ledger row final |
| `ArchiveAge.PagesTakeTheOldest` | internal/store/pg/lifecycle.go:225-244 | no row left out is older than one taken, and none is left out unless the page is full |
| `ArchiveAge.LinesAreTheRows` | internal/store/pg/lifecycle.go:348-424 | each selected row and each selected job's result is on the lines exactly once, nothing else is |
| `ArchiveAge.DeletedRowsAreOld` | internal/lifecycle/sweeper.go:127-206 | over legal runs: every row a delete removes by its key was taken by that sweeper's own selection and was then created strictly before its cutoff; so was the row removed unless its key was created anew in between, which no job's ever is |
| `Archive.EnvKeepsCovers` | internal/store/pg/lifecycle.go:348-424 | concurrent changes never make a batch miss a row its delete would cascade to |
| `Archive.ReusedNameBreaksArchive` | internal/lifecycle/sink.go:88-94 | why archive names must be fresh |
| `RetentionSweeper.SelectKeys` | internal/store/pg/lifecycle.go:225-244 | the first limit eligible rows in order |
| `RetentionSweeper.Sweeper.WriteData` | internal/lifecycle/sink.go:34-65 | data file, read-back and comparison; failures remove it |
| `RetentionSweeper.Sweeper.Write` | internal/lifecycle/sink.go:34-76 | a manifest exactly for an artifact whose stored lines matched |
| `RetentionSweeper.Sweeper.DeleteBatch` | internal/store/pg/lifecycle.go:478-506 | deletes exactly the still deletable keys, with cascade |
| `RetentionSweeper.Sweeper.RunBatch` | internal/lifecycle/sweeper.go:165-206 | select, archive, delete: when it fails, what it archived, and that nothing is left when it selects nothing |
| `RetentionSweeper.Sweeper.RunTable` | internal/lifecycle/sweeper.go:115-216 | holds and dry runs change nothing; every selection is made at now minus the policy's TTL; the archived and deleted counters are exactly what the run's manifests hold and its deletes removed; a completed run used its batches or left nothing eligible; every step is one of the archive machine |
| `Export.QueryResumes` | internal/store/pg/lifecycle.go:633-652 | a cursor resumes exactly after its row |
| `Export.SourceExactIff` | internal/lifecycle/export.go:179-200 | one source's walk equals its one-shot answer if and only if no page boundary in the budget has the zero time |
| `Export.ExportExactIff` | internal/lifecycle/export.go:172-203 | the whole export equals the one-shot answer if and only if every reached source is clean |
| `Export.OneShotIsTheFirstRows` | internal/lifecycle/export.go:172-203 | the one-shot answer is the first rows, as many as the budget allows, of exactly the kept rows |
| `Export.ZeroTimesRepeat` | internal/lifecycle/export.go:179-200 | 500 rows at the zero time repeat the first one |
| `Export.PreparedIsBounded` | internal/lifecycle/export.go:104-117 | budget clamp with its default and maximum, and the tenant rule |
| `Export.ExportArtifact.Write` | internal/lifecycle/export.go:72-84 | emits, hashes and counts the same line, within the bound |
| `Export.WalkSource` | internal/lifecycle/export.go:179-200 | the page loop of one source |
| `Export.ExportPages` | internal/lifecycle/export.go:172-203 | the loop over sources |

## Left out

- Job fields that no transition reads (tenant, protocol, model, trace identity, usage and sizes of a result) are not modelled.
- Job, request and ledger identifiers are ranks in their string order where only the order matters; times are integers. In the ledger a job is named "resp_" and its rank, where the code has resp_<nanos>_<n>: only that names differ is used.
- Records are values in a map, not shared pointers: aliasing of a returned job is not modelled.
- The lease-lost result body is one parameter of the sweep; in the code it also names the job.
- WorkerPool.Pool.RunJob: provider, gates, encoder and clock are parameters; heartbeat timing, metrics, spans and the cancel registry's wake-ups are not modelled beyond an abort at any point.
- WorkerPool.Pool.RunJob: the token quota's own counters are not part of the protocol state, because they are the budget gate on two counters; their pairing is proved in Admission for the synchronous path only.
- WorkerPool.Pool.RunJob: the limiter slot of an execution is not part of the protocol state, and an audit sink is assumed to be configured.
- WorkerPool.Pool.SweepOnce: no interference between its own audit writes; JobProtocol allows it.
- JobFairness.NoStarvation: assumes no free returns; with them no bound holds (JobFairness.FreeReturnsStarve).
- JobCreation.ReplayWindow: for the in-memory store, whose window includes its end point; the SQL window excludes it.
- JobLedger.BothBooksAgree: assumes accounting calls do not fail and settled values pass the table's checks; with faults the counters half is JobMoney.JobIsChargedOnce.
- RedisBudget.RunRefines: while no key or marker has expired, and without Lua number precision; INCRBY is unbounded, where Redis reports an overflow.
- Policy folding, retry-after durations of budgets, price and budget administration, and the reserved-row backlog query.
- PostgreSQL isolation details and SKIP LOCKED claims: each statement is one atomic step; the SQL job store is not modelled.
- OpenAIStream.Stream: bytes, JSON and scanner limits are abstracted to frames; the stall watchdog is an interruption at any line. The upstream may announce itself twice, so "exactly one created event" is not claimed.
- The Anthropic adapter, Complete and Embeddings loops, non-streaming encodings and first-token times.
- ResponsesEncoder.ExactlyOneTerminal: JSON and schema validation are two arbitrary predicates; a broken connection stays broken.
- StreamService.PermitsBalance: breaker state and backoff delays are an oracle; distinct provider names per model are assumed by Record.
- Archive.ManifestImpliesData: crashes are those of the process; for power losses see Archive.RollbackIff. Whether a manifest that outlives its neighbours still has its data file is then a premise of Archive.PowerLossIff, not a result.
- Archive.RunInv: selecting a batch is one atomic step, where the code reads each job's result in a query of its own; a selected job is terminal and gains no result in between.
- Archive.ArchivedBeforeDeleted: a digest is the data itself, archive names are fresh, and nobody else deletes jobs or archive files. The request snapshot removed by a job's cascade is content and deliberately not archived.
- RetentionSweeper.Sweeper.RunTable: run bookkeeping (start, finish, stale runs), schema version and time ranges of manifests, and the policy's archive-before-delete flag, which the code only stores.
- Export.ExportExactIff: on a fixed table; the filters' SQL is one predicate per source; header, trailer encoding and the data_exports record.
- Limiter.AtMostTwiceTheRate: with a clock that never goes back. The Redis limiter is not modelled.
- HTTP decoding, headers, error envelopes, the admin API, configuration, metrics and tracing.
