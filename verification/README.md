# Gateway, supply API and scheduler: a verified model

This project models the stateful core of an LLM gateway, of the supply API behind it and of the litellm scheduler and
budget manager kept beside them, and proves what they guarantee over whole runs: every input, every interleaving that
the model allows, every reachable state.

How the files are built:

- The operations that change state are classes and methods with the source's own loops and branches. Each method's
  `ensures` ties the new state to a function on values, or states the promised property outright.
- The theorems are about those functions: a run is a sequence of operations, folded from a start state, and the history
  that the program itself throws away (admissions, publish attempts, database snapshots) is kept beside it.
- Time is an argument that never goes back. `float64` is `real`. Go maps are walked in an arbitrary order. I/O, random
  values, clocks, the broker, the executor and the JSON codec are parameters.
- A public call is one atomic step, except where a module says otherwise: the token-status protocol, optimistic locking,
  withdrawals, the outbox, overlapping compensation passes and the auth chain are interleaved step by step.

Where code and comments disagree the model follows the code:

- The outbox processor counts retries in memory and relies on the store to keep the count; `MarkFailed` does not write
  it. Both are modelled (`persists`); the statement as written gives `RepositoryDeadLettersIff` and
  `RepositoryRetriesForever`.
- The compensation store's statements do not write `retry_count` either (`SqlStoreEscalatesIff`), nor do they look at the
  status they replace, so a pass that is overtaken reopens a resolved item (`ReopensIff`, `ResolvedRowReopened`).
  Even a store that kept the count would not bound the executions once passes overlap (`OverlapUnbounded`). Listing the
  items may fail like any query; both passes are modelled for that outcome too.
- The worker records its statistics even when storing the result failed; a batch pass does not (`StatsAddUp`).
- `Activate` and `Suspend` bump the version before the store uses it as the expected one, so alone they never commit
  (`ServicesNeverCommit`).
- The supply API's limiter is configured per window, but its buckets never refill (`LifetimeLimit`).
- The revocation service aims at a propagation delay of five seconds; what holds is the cache TTL plus the longest
  read-to-write gap, and no less (`RevocationPropagates`, `PropagationBoundIsTight`).
- The withdrawal transaction is meant to keep one open withdrawal per supplier; its query skips rows that other
  transactions hold locked and cannot see uncommitted ones. The rule holds if every passing query finds no other passing
  transaction of its supplier and no open row, skipped ones included (`RuleKept`); any other passing query can be
  continued to two open withdrawals (`RuleBroken`). Calls that do not overlap are safe (`SerialCallsKeepRule`).
- `create_budget` evaluates the default of `created_at` once, when the module is imported, so creating a budget again
  back-dates it and brings its next reset forward (`DefaultCreatedAtResetsEarly`).
- The scheduler's queues live in a cache whose entries expire ten minutes after the first save, whatever is saved in
  between (`SavesDoNotRenew`).
- An absent token row reads as active, so deleting a subject's rows undoes a revocation (`ActiveAgainIffRowDeleted`).

| file | contents |
|---|---|
| `SlidingWindow.dfy` | the gateway's sliding-window limiter |
| `TokenBucket.dfy` | the gateway's token-bucket limiter |
| `IntegerBucket.dfy` | the supply API's integer bucket and its middleware |
| `TokenStatusCache.dfy` | the token registry, the cached status protocol, and the backend with atomic calls |
| `Outbox.dfy` | backoff, outbox store and processor |
| `OptimisticLock.dfy` | version-checked rows, accounts, settlements |
| `Withdrawals.dfy` | the withdrawal rule under interleaved checks, queries, commits and row locks |
| `Compensation.dfy` | batch compensation and its worker; passes that overlap |
| `Scheduler.dfy` | request order, binary heaps, per-model queues |
| `Router.dfy` | provider health and provider selection |
| `AuthChain.dfy` | token runtime and authentication chain |
| `BudgetLedger.dfy` | per-user budgets |
| `SseFraming.dfy` | server-sent event frames, written and read |
| `Common.dfy` | option type, distinctness, truncation and other arithmetic |

`dafny verify dfyconfig.toml` checks everything.

## Model

| member | source | states |
|---|---|---|
| SlidingWindow.AllowIsExact | gateway/internal/ratelimit/ratelimit.go:200-231 | in any run with sweeps anywhere, Allow says yes exactly when the full, unpruned history has fewer than maxRequests admissions of the key in (now-W, now] |
| SlidingWindow.WindowNeverExceeded | gateway/internal/ratelimit/ratelimit.go:200-292 | no key ever has more than max(0, maxRequests) admissions in any interval (t-W, t], for every t |
| SlidingWindow.RemainingIsExact | gateway/internal/ratelimit/ratelimit.go:238-265 | Remaining is the limit minus the history count; a negative limit shows itself until the key is tried and 0 afterwards |
| SlidingWindow.SweepsUnobservable | gateway/internal/ratelimit/ratelimit.go:267-292 | erasing all sweeps from a run changes no answer and no admission |
| SlidingWindow.SweepReclaims | gateway/internal/ratelimit/ratelimit.go:267-292 | a sweep deletes a key exactly if it has admissions, all at least two windows old and the newest older; the others keep exactly their younger ones |
| SlidingWindow.RunAgrees | gateway/internal/ratelimit/ratelimit.go:215-229 | after any run the pruned list and the full history agree on everything inside the window |
| SlidingWindow.SlidingWindowLimiter.Allow | gateway/internal/ratelimit/ratelimit.go:200-231 | refines the value-level step the theorems are about: pruned list, admission, answer |
| SlidingWindow.SlidingWindowLimiter.GetLimit | gateway/internal/ratelimit/ratelimit.go:238-265 | the counting loop yields the specified Remaining; RPM is the limit and ResetAt one window from the second reading of the clock |
| SlidingWindow.SlidingWindowLimiter.Cleanup | gateway/internal/ratelimit/ratelimit.go:267-292 | one sweep, in any key order, prunes to two windows and deletes exactly the droppable keys |
| SlidingWindow.Prune | gateway/internal/ratelimit/ratelimit.go:215-222 | keeps exactly the timestamps after the cutoff, in order |
| TokenBucket.AllowIsExact | gateway/internal/ratelimit/ratelimit.go:82-104 | for rpm >= 0 and any burst, after any run of requests that are not negative, with sweeps anywhere, a request is granted if and only if granting it keeps burst + rate*(now-from) on every interval [from, now] of the full history |
| TokenBucket.DrainingIsInexact | gateway/internal/ratelimit/ratelimit.go:82-104 | for every rpm < 0 the equivalence fails on the first call: the whole burst is granted and does not fit |
| TokenBucket.NegativeRequestIsInexact | gateway/internal/ratelimit/ratelimit.go:82-104 | for rpm >= 0 every granted negative request as first call breaks it: its bucket holds more than maxTokens, and a request that fits is then refused |
| TokenBucket.MinuteBound | gateway/internal/ratelimit/ratelimit.go:132-140 | for burst and rpm that are not negative, and requests that are not, no minute grants a key more than the burst plus the configured requests per minute |
| TokenBucket.GrantedAfterWaiting | gateway/internal/ratelimit/ratelimit.go:132-153 | the lower bound: whatever the history, a request for n <= burst tokens is granted once rpm * seconds has reached 60 * n since the key's last call |
| TokenBucket.DrainedKeyRefills | gateway/internal/ratelimit/ratelimit.go:132-153 | and exactly: a key drained at t is granted n <= burst tokens at a later time if and only if rpm * (now - t) >= 60 * n |
| TokenBucket.DrainedKeyGetsItsMinute | gateway/internal/ratelimit/ratelimit.go:132-153 | a drained key is granted rpm <= burst tokens exactly from one minute later on |
| TokenBucket.FirstCallGetsBurst | gateway/internal/ratelimit/ratelimit.go:132-140 | a key's first request is granted if and only if it asks for at most rpm * burstMultiplier tokens, a negative product being rounded up |
| TokenBucket.IntervalBound | gateway/internal/ratelimit/ratelimit.go:82-104 | for burst and rpm that are not negative, and requests that are not, a key is granted at most burst + rate*(to-from) tokens in any [from, to], across lazy refills, sweeps and re-creations |
| TokenBucket.BoundUnlessDraining | gateway/internal/ratelimit/ratelimit.go:132-153 | for every configuration except a positive burst with a negative rate, a key is granted at most max(0, burst + rate*(to-from)) |
| TokenBucket.DrainingBreaksBound | gateway/internal/ratelimit/ratelimit.go:132-153 | for every such configuration one grant of the whole burst exceeds that bound, so the condition is exact |
| TokenBucket.NothingWithoutBurst | gateway/internal/ratelimit/ratelimit.go:132-153 | with a burst of zero or less nothing is ever granted, whatever the rate |
| TokenBucket.StoredInRange | gateway/internal/ratelimit/ratelimit.go:142-153 | for burst and rpm that are not negative, stored tokens stay in [0, maxTokens] in every run of requests that are not negative |
| TokenBucket.StoredAfterAnyRequests | gateway/internal/ratelimit/ratelimit.go:142-153 | for any requests, negative ones included, they are never negative and exceed maxTokens at most by the amount of the key's last request, if that was negative |
| TokenBucket.RefillCompose | gateway/internal/ratelimit/ratelimit.go:142-153 | refilling in two instalments equals refilling once: laziness loses nothing |
| TokenBucket.SweepsUnobservable | gateway/internal/ratelimit/ratelimit.go:155-172 | with a rate that is not negative, erasing the sweeps changes no answer, for any requests |
| TokenBucket.SweepsObservableWhenDraining | gateway/internal/ratelimit/ratelimit.go:155-172 | with a negative rate some run does answer differently, so the condition is exact |
| TokenBucket.GetLimitBlindWithoutBurst | gateway/internal/ratelimit/ratelimit.go:107-130 | with burst 0 GetLimit's Remaining does not reveal sweeps |
| TokenBucket.GetLimitSeesSweep | gateway/internal/ratelimit/ratelimit.go:107-130 | with any larger burst it does: some run reports 0 swept and the burst unswept |
| TokenBucket.TokenBucketLimiter.AllowToken | gateway/internal/ratelimit/ratelimit.go:82-104 | refines the value-level step: create, refill, spend or refuse |
| TokenBucket.TokenBucketLimiter.RefillBucket | gateway/internal/ratelimit/ratelimit.go:142-153 | adds the elapsed refill and caps it at maxTokens |
| TokenBucket.TokenBucketLimiter.GetLimit | gateway/internal/ratelimit/ratelimit.go:107-130 | RPM, TPM, Burst, Remaining and ResetAt of a present bucket; no reset time and nothing remaining for an absent one |
| TokenBucket.TokenBucketLimiter.Cleanup | gateway/internal/ratelimit/ratelimit.go:155-172 | deletes exactly the full buckets idle for more than 600 seconds |
| IntegerBucket.NeverAdmitsMoreThanIdeal | supply-api/internal/middleware/ratelimit.go:70-106 | unless it drains from a positive capacity, and whatever calls refilled it in between, the truncating bucket admits only when the ideal real-valued bucket with the same admissions has a whole token |
| IntegerBucket.DrainingAdmitsMore | supply-api/internal/middleware/ratelimit.go:85-106 | every bucket that does drain from a positive capacity has a run in which it admits while the ideal bucket is empty, so the condition is exact |
| IntegerBucket.LosesAtMostOnePerCall | supply-api/internal/middleware/ratelimit.go:85-98 | for every rate the bucket is never further from the ideal one than the number of calls: below it while refilling, above it while draining |
| IntegerBucket.IntervalBound | supply-api/internal/middleware/ratelimit.go:60-114 | for every rate, admissions in [from, to] are at most (1 + resets) * max(0, capacity) + max(0, rate)*(to-from) |
| IntegerBucket.WholeSecondsRefill | supply-api/internal/middleware/ratelimit.go:85-98 | after k whole seconds a bucket has gained exactly rate * k tokens, up to its capacity |
| IntegerBucket.ResetAdmitsCapacity | supply-api/internal/middleware/ratelimit.go:70-114 | a reset bucket admits exactly its capacity of calls at once |
| IntegerBucket.LifetimeLimit | supply-api/internal/middleware/ratelimit.go:125-202 | the i-th request passes exactly when the limit is disabled or fewer than Requests earlier ones had its key, whatever the times |
| IntegerBucket.BucketCountsDown | supply-api/internal/middleware/ratelimit.go:181-202 | a key's bucket counts down from Requests and is never refilled; a disabled middleware creates none |
| IntegerBucket.TokenBucket.RefillAt | supply-api/internal/middleware/ratelimit.go:85-98 | adds the truncated refill, caps it, moves lastRefill |
| IntegerBucket.TokenBucket.Allow | supply-api/internal/middleware/ratelimit.go:70-82 | refines the value-level step |
| IntegerBucket.TokenBucket.Remaining | supply-api/internal/middleware/ratelimit.go:101-106 | refills and reports the tokens |
| IntegerBucket.TokenBucket.Reset | supply-api/internal/middleware/ratelimit.go:109-114 | fills the bucket and restarts its clock |
| IntegerBucket.RateLimitMiddleware.GetBucket | supply-api/internal/middleware/ratelimit.go:181-202 | one bucket object per key, created full with rate 0, never shared |
| IntegerBucket.RateLimitMiddleware.ServeHTTP | supply-api/internal/middleware/ratelimit.go:125-147 | one request changes only its key's bucket and answers as specified; a disabled limit passes it and touches nothing |
| RevocationProtocol.StalenessBounded | supply-api/internal/middleware/db_token_backend.go:63-94 | for a positive TTL, in every interleaving, with any other database writers, each answer was the database's own less than TTL + gap earlier |
| RevocationProtocol.RevocationPropagates | supply-api/internal/middleware/token_revocation_service.go:38-68 | once a row is revoked and stays so, no "active" answer comes TTL + gap or later, whichever invalidations, events and fallback invalidations fail |
| RevocationProtocol.ExpiryPropagates | supply-api/internal/repository/token_status.go:101-116 | while a row that expires at e stays in the table, no "active" answer comes TTL + gap or later after both e and the moment the row was there |
| RevocationProtocol.PropagationBoundIsTight | supply-api/internal/middleware/token_revocation_service.go:38-59 | for every TTL and gap a fully successful revocation is still followed by an "active" one tick before the bound |
| RevocationProtocol.StartInv | supply-api/internal/middleware/db_token_backend.go:43-52 | an empty cache over any database satisfies the protocol's invariant, so the results hold of every run from it |
| RevocationProtocol.StepInv | supply-api/internal/cache/redis.go:133-195 | every step keeps: live entries and in-flight checks hold statuses the database had when they were read |
| TokenStatusBackend.NoActiveAfterRevoke | supply-api/internal/middleware/db_token_backend.go:97-112 | with atomic calls, in any run that does not delete the subject's rows and with any failing calls, a check after a successful RevokeToken answers "active" only if the invalidation failed and the entry it left is still live; right after it, exactly then |
| TokenStatusBackend.NoActiveAfterExpiry | supply-api/internal/repository/token_status.go:101-116 | for a positive TTL, in any run that keeps the row and with any failing calls, no check answers "active" TTL seconds after its expiry or later |
| TokenStatusBackend.MissIsExact | supply-api/internal/repository/token_status.go:101-116 | a check that misses the cache answers "active" exactly for an absent row or an active one not past its expiry, "expired" for an active one past it |
| TokenStatusBackend.AnswerIsCached | supply-api/internal/middleware/db_token_backend.go:63-94 | what it stored is the answer for exactly TTL seconds, whatever happens to the table |
| TokenStatusBackend.ExpiredRowForgotten | supply-api/internal/repository/token_status.go:178-188 | after DeleteExpired a token reads "active" exactly if its row was stored as expired and old enough to go, or is active and not past its expiry |
| TokenStatusBackend.ActiveAgainIffRowDeleted | supply-api/internal/repository/token_status.go:101-116 | for a positive TTL, once the cached entries have expired, a revoked and never re-created token reads "active" again if and only if its subject's rows were deleted |
| TokenStatusBackend.RevokedForGoodWithoutExpiry | supply-api/internal/cache/redis.go:152-160 | with a negative TTL, which the SET sends without an expiry, one check after the revocation answers "revoked" for good, though the rows are deleted |
| TokenStatusBackend.RevokeBySubjectMisses | supply-api/internal/middleware/db_token_backend.go:121-152 | right after RevokeBySubjectID a token still answers "active" exactly if a live "active" is cached and its row had reached its expiry, or the listing or its invalidation failed |
| TokenStatusBackend.DBTokenStatusBackend.CheckTokenStatus | supply-api/internal/middleware/db_token_backend.go:63-94 | refines the value-level check: live cache entry, else database and cache write; a failing cache is ignored, a failing database is an error |
| TokenStatusBackend.DBTokenStatusBackend.RevokeToken | supply-api/internal/middleware/db_token_backend.go:97-112 | revokes an active row, else fails and changes nothing; a failing invalidation is swallowed and leaves the entry |
| TokenStatusBackend.DBTokenStatusBackend.RevokeBySubjectID | supply-api/internal/middleware/db_token_backend.go:121-152 | revokes exactly the active rows of the subject and invalidates exactly the listed tokens whose invalidation succeeds; none if the listing failed; no change if the update failed |
| Backoff.CalculateOutboxBackoff | supply-api/internal/domain/outbox.go:36-54 | the doubling loop returns min(60, 2^(max(n,1)-1)) for every n: 1, 2, 4, 8, 16, 32 and then 60 |
| Backoff.DelayMonotone | supply-api/internal/domain/outbox.go:36-54 | the delay never shrinks with n and stays in [1, 60] |
| Outbox.TerminalEventsEarnedIt | supply-api/internal/outbox/outbox.go:96-137 | in every run no event is accepted twice; a completed one was accepted exactly once; a dead-lettered one never was and failed at least max(1, max_retries - initial count) times |
| Outbox.RetriesTerminate | supply-api/internal/outbox/outbox.go:116-137 | if the count is persisted, an event gets at most max(1, max_retries - initial count) attempts and, unless a store call failed, is completed or dead-lettered by then |
| Outbox.AttemptsAreSpaced | supply-api/internal/outbox/outbox.go:126-131 | in every run, each attempt of an event comes at least the backoff delay after the attempt before it, the delay being that of the count the processor then saw |
| Outbox.DueExactlyAfterDelay | supply-api/internal/repository/outbox.go:171-191 | and no longer: a failed event that waits can be claimed exactly from that delay after its last attempt on |
| Outbox.AttemptsSpanTheSum | supply-api/internal/outbox/outbox.go:126-131 | so the first and last of n attempts are at least the sum of the backoff delays apart |
| Outbox.WaitedAtMost | supply-api/internal/domain/outbox.go:36-54 | that sum is between one second and one minute per retry |
| Outbox.RepositoryDeadLettersIff | supply-api/internal/repository/outbox.go:171-191 | with MarkFailed as written, a failed publish dead-letters exactly if the event was created with at most one retry left |
| Outbox.RepositoryRetriesForever | supply-api/internal/repository/outbox.go:171-191 | otherwise, for every n, a run fails it n times and it is still neither completed nor dead-lettered |
| Outbox.BatchIsRun | supply-api/internal/outbox/outbox.go:81-113 | a claimed batch handled in order is a run of single steps |
| Outbox.OutboxProcessorRunner.HandleFailure | supply-api/internal/outbox/outbox.go:116-137 | dead-letters, reschedules with backoff or loses the event, with one statistic |
| Outbox.OutboxProcessorRunner.HandleEvent | supply-api/internal/outbox/outbox.go:96-110 | one event, one effect, one statistic: completed with a success, rescheduled with a retry, dead-lettered, or unchanged with a failure |
| Outbox.OutboxProcessorRunner.Process | supply-api/internal/outbox/outbox.go:81-113 | claims the batch, handles it in order and records exactly one statistic per event; without a broker or after a failing statement nothing changes; a failing scan leaves the batch claimed and unhandled |
| OptimisticLock.CommitsIff | supply-api/internal/repository/account.go:129-166 | in every reachable state a write commits if and only if exactly `bump` writes of its row committed since its read |
| OptimisticLock.WriteEffect | supply-api/internal/repository/settlement.go:119-150 | a stale write changes nothing; a committed one raises its row's version by exactly one and touches no other row |
| Accounts.ServiceCommitsIffOvertakenOnce | supply-api/internal/domain/account.go:209-265 | an Activate or Suspend commits exactly if one other update came in between, and overwrites it with a status computed from its old read |
| Accounts.ServicesNeverCommit | supply-api/internal/adapter/adapter.go:150-152 | when they are the only writers none ever commits: every account stays as inserted |
| Accounts.AccountService.Update | supply-api/internal/repository/account.go:129-166 | commits if and only if id, owner and version match, one version up |
| Accounts.AccountService.StoreUpdate | supply-api/internal/adapter/adapter.go:150-152 | passes the account's own version as the expected one |
| Accounts.AccountService.Activate | supply-api/internal/domain/account.go:209-236 | uninterrupted, every account it should activate gets a conflict and nothing changes |
| Accounts.AccountService.Suspend | supply-api/internal/domain/account.go:238-265 | likewise for suspension |
| Settlements.CancelNeverOverridesPayment | supply-api/internal/domain/settlement.go:286-317 | in every interleaving a processing or completed settlement is changed by no step but another version-checked writer |
| Settlements.CancelCommitsIffUndisturbed | supply-api/internal/domain/settlement.go:296-305 | Cancel commits exactly if no other write committed since its read, and then fails the settlement, one version up, amounts kept |
| Settlements.RunOk | supply-api/internal/domain/settlement.go:255-267 | in every reachable state fee + net = total and the fee is one percent of it, 0 < fee < net < total |
| Settlements.SuppliersGetNinetyNinePercent | supply-api/internal/domain/settlement.go:255-267 | over every run a supplier's settlements pay out 99 percent of all that the supplier withdrew |
| Withdrawals.RuleKept | supply-api/internal/repository/settlement.go:293-340 | in every run in which each passing query finds no passing transaction of its supplier and no open row, locked ones included, no supplier ever has two open withdrawals |
| Withdrawals.RuleBroken | supply-api/internal/repository/settlement.go:293-340 | in every reachable state any other passing query can be continued by commits alone to two open withdrawals, so the condition is exact |
| Withdrawals.SerialCallsKeepRule | supply-api/internal/domain/settlement.go:232-275 | if no call starts its check while another of its supplier is under way, the rule holds, whatever other writers lock |
| Withdrawals.OverlapBreaksRule | supply-api/internal/repository/settlement.go:296-312 | from the empty table, two overlapping calls both pass and both commit |
| Withdrawals.SkippedLockBreaksRule | supply-api/internal/repository/settlement.go:296-312 | from the empty table, a call that passed its check skips a committed row that another writer has locked, and commits a second one |
| Settlements.SettlementService.Withdraw | supply-api/internal/domain/settlement.go:222-284 | succeeds exactly under its four checks and stores a pending settlement at version 0 with a fee of one percent and 99 percent net |
| Settlements.SettlementService.Cancel | supply-api/internal/domain/settlement.go:286-317 | succeeds exactly for an own settlement that is not processing or completed |
| Compensation.SqlStoreEscalatesIff | supply-api/internal/domain/compensation.go:364-392 | over the SQL store a failing open item escalates exactly if retry_count + 1 >= max_retries held when it was inserted |
| Compensation.SqlStoreNeverEscalates | supply-api/internal/domain/compensation.go:364-392 | a row inserted with more than one retry left never becomes manual_required in any run |
| Compensation.PersistedCountTerminates | supply-api/internal/domain/compensation.go:129-166 | over a store that keeps the count, when its calls succeed and items are handled as they are listed, a row is executed at most max(1, max_retries - initial count) times, is closed by then and escalates only then |
| StalePasses.SerialPassesTerminate | supply-api/internal/domain/compensation.go:211-271 | the same for passes that list first and write later, if no pass lists the row while another has still to write it |
| StalePasses.OverlapExceedsBudget | supply-api/internal/domain/compensation.go:211-271 | after any such run, a listing that overlaps can be continued by stored failures alone to more executions than the budget, so the condition is exact |
| StalePasses.OverlapUnbounded | supply-api/internal/domain/compensation.go:211-271 | for every n, n passes that listed the same row store n failures and leave it open with one retry used |
| Compensation.ClosedRowsStay | supply-api/internal/domain/compensation.go:129-132 | when items are handled as they are listed, resolved, manual_required and abandoned rows never change again |
| StalePasses.ReopensIff | supply-api/internal/domain/compensation.go:364-392 | with passes that list first and write later, a pass is about to write a closed row exactly if another pass closed it since this one listed it; the write reopens it exactly if it then stores a failure with retries left |
| StalePasses.ResolvedRowReopened | supply-api/internal/domain/compensation.go:211-271 | for every row with retries left two passes resolve it and then set it back to retrying |
| StalePasses.UndisturbedWriteIsItem | supply-api/internal/domain/compensation.go:129-166 | a pass that no write overtook does what handling the item at once does |
| Compensation.CountersAddUp | supply-api/internal/domain/compensation.go:120-168 | success + retry + manual + failed is the number of open items of the batch |
| Compensation.StatsAddUp | supply-api/internal/domain/compensation.go:129-271 | a batch's statistics equal its counters; the worker's exceed what was stored by the number of failed store calls |
| Compensation.PassHandlesEachOnce | supply-api/internal/domain/compensation.go:129-166 | each listed row is handled once from its state before the pass; unlisted and closed rows are untouched |
| Compensation.PassIsRun | supply-api/internal/domain/compensation.go:129-166 | a pass is a run of single items |
| Compensation.CompensationProcessor.ProcessItem | supply-api/internal/domain/compensation.go:129-166 | one item, case by case: the status it writes, the one counter it moves and the statistic it records |
| Compensation.CompensationProcessor.ProcessBatchCompensations | supply-api/internal/domain/compensation.go:113-169 | the pass's rows, counters, their sum and the statistics; a failing listing changes nothing |
| Compensation.CompensationProcessor.ProcessPendingCompensations | supply-api/internal/domain/compensation.go:211-271 | the worker's pass over every open row, with the statistics of its verdicts, stored or not |
| RequestOrder.TotalOrder | llm-gateway-competitors/litellm-wheel-src/litellm/scheduler.py:53-53 | pairs of priority and id are totally ordered |
| RequestOrder.LeIffGoesFirst | llm-gateway-competitors/litellm-wheel-src/litellm/scheduler.py:49-53 | the queue order is: lower number first, and among equal numbers the id that is smaller at the first position where they differ |
| Heap.HeapPush | llm-gateway-competitors/litellm-wheel-src/litellm/scheduler.py:53-53 | keeps a heap and adds exactly one item |
| Heap.HeapPop | llm-gateway-competitors/litellm-wheel-src/litellm/scheduler.py:86-86 | returns the least item, keeps a heap, removes exactly that item |
| Heap.Heapify | llm-gateway-competitors/litellm-wheel-src/litellm/scheduler.py:102-102 | makes a heap of any list, a permutation of it |
| Heap.Drain | llm-gateway-competitors/litellm-wheel-src/litellm/scheduler.py:58-93 | popping until empty gives a permutation in which lower priority numbers, and then smaller ids, go first |
| Heap.RootIsLeast | llm-gateway-competitors/litellm-wheel-src/litellm/scheduler.py:83-84 | the first entry of a heap is a least one |
| Scheduling.WithoutRemovesExactly | llm-gateway-competitors/litellm-wheel-src/litellm/scheduler.py:101-101 | filtering removes every entry with the id and no other |
| Scheduling.Scheduler.AddRequest | llm-gateway-competitors/litellm-wheel-src/litellm/scheduler.py:48-56 | keeps every queue a heap equal to added minus popped minus removed minus expired; other models' queues are untouched |
| Scheduling.Scheduler.GetQueue | llm-gateway-competitors/litellm-wheel-src/litellm/scheduler.py:130-142 | reads the queue, removing an entry past its deadline and writing off all it held |
| Scheduling.SavesDoNotRenew | llm-gateway-competitors/litellm-wheel-src/litellm/caching/in_memory_cache.py:147-173 | however often a model's queue is saved within ten minutes of its first save, all of it is lost when they are over |
| Scheduling.Scheduler.Poll | llm-gateway-competitors/litellm-wheel-src/litellm/scheduler.py:58-93 | with no healthy deployment grants exactly the id of the entry with the lowest priority number, ties by the smallest id, and pops that one; otherwise grants and pops nothing; an empty or expired queue is an error |
| Scheduling.Scheduler.RemoveRequest | llm-gateway-competitors/litellm-wheel-src/litellm/scheduler.py:95-106 | deletes exactly the entries with the id and restores the heap |
| Scheduling.Scheduler.Peek | llm-gateway-competitors/litellm-wheel-src/litellm/scheduler.py:108-124 | true exactly for the id of the entry with the lowest priority number, ties by the smallest id |
| ProviderHealth.RateBound | gateway/internal/router/router.go:234-247 | after k failures in any mix with successes the rate is in [0, 1 - 0.9^k] |
| ProviderHealth.NeverDownBeforeSeventhFailure | gateway/internal/router/router.go:234-252 | a result marks an available provider down only on a failure, and not before the seventh since registration |
| ProviderHealth.SeventhStraightFailureTrips | gateway/internal/router/router.go:241-252 | on a fresh provider exactly the seventh straight failure does |
| ProviderHealth.AvailableIffNeverAboveHalf | gateway/internal/router/router.go:234-252 | under results alone a provider is available exactly as long as its rate was never above one half |
| ProviderHealth.StraightFailures | gateway/internal/router/router.go:241-247 | n straight failures from rate f give 1 - (1-f) * 0.9^n |
| ProviderHealth.StraightSuccesses | gateway/internal/router/router.go:235-240 | n straight successes halve the rate n times, with anything under one percent becoming 0, and never mark a provider down |
| ProviderHealth.SevenSuccessesForget | gateway/internal/router/router.go:235-240 | seven straight successes clear any rate; from rate 1 fewer do not |
| ProviderHealth.ResultsNeverRevive | gateway/internal/router/router.go:249-266 | no sequence of results makes a provider available again |
| ProviderHealth.LatencyBounds | gateway/internal/router/router.go:224-232 | with samples below 2^60 the average is 0 exactly until the first positive one, then between the least and greatest of them |
| ProviderHealth.LargeSamplesLeaveBounds | gateway/internal/router/router.go:224-232 | for every range that reaches 2^60 some sample in it, given twice, overflows int64 and leaves the average below the range, so the condition is exact |
| ProviderHealth.ConstantSampleConverges | gateway/internal/router/router.go:224-232 | as long as the sum fits int64, under a constant sample s it strictly approaches and then stays at its limit in [s-7, s], within its distance in steps |
| ProviderHealth.StepsAnEighth | gateway/internal/router/router.go:224-232 | one step goes an eighth of the way to the sample, rounded down |
| ProviderHealth.ConvergesGeometrically | gateway/internal/router/router.go:224-232 | the distance beyond seven shrinks by 7/8 with every sample: 8^n times it after n samples is at most 7^n times it before |
| Routing.Router.RegisterProvider | gateway/internal/router/router.go:57-70 | a fresh health record beside the provider |
| Routing.Router.UpdateHealth | gateway/internal/router/router.go:258-266 | sets the availability of a known provider |
| Routing.Router.RecordResult | gateway/internal/router/router.go:215-255 | one step of the provider's health for every int64 sample, overflow included |
| Routing.Router.IsProviderAvailable | gateway/internal/router/router.go:103-126 | available, not nil, and listing the model or "*" |
| Routing.Router.Candidates | gateway/internal/router/router.go:77-82 | exactly the eligible providers, each once, in some order |
| Routing.Router.SelectByLatency | gateway/internal/router/router.go:138-155 | a candidate of least latency, whatever the order; none exactly if every latency is the largest int64 |
| Routing.Router.SelectByAvailability | gateway/internal/router/router.go:176-193 | a candidate of least failure rate |
| Routing.Router.TotalWeight | gateway/internal/router/router.go:158-161 | the sum of the candidates' weights |
| Routing.Router.PickSlice | gateway/internal/router/router.go:164-173 | the index whose slice of the cumulative weights holds the target, else the first |
| Routing.Router.SelectByWeight | gateway/internal/router/router.go:157-174 | the candidate whose slice of the cumulative weights holds the random point; the weights being one, each slice is an equal share |
| Routing.Router.SelectByRoundRobin | gateway/internal/router/router.go:128-136 | the candidate at the counter's position; the counter wraps at 2^64 |
| Routing.Router.SelectProvider | gateway/internal/router/router.go:73-101 | a provider exactly if one is eligible (by latency: with a latency below the largest int64), always an eligible one, and a best one by latency or availability |
| TokenRuntime.RunIndexed | gateway/internal/middleware/runtime.go:45-80 | given fresh draws, records and tokenToID stay inverse to each other in every run |
| TokenRuntime.StatusOnlyAdvances | gateway/internal/middleware/runtime.go:108-140 | records are never dropped, statuses only move active -> expired -> revoked or active -> revoked, nothing else changes |
| TokenRuntime.IssueRemembered | gateway/internal/middleware/runtime.go:45-140 | an accepted issue is remembered for good and stays active while neither revoked nor resolved past its expiry |
| TokenRuntime.RecordHistory | gateway/internal/middleware/runtime.go:45-131 | every record goes back to one accepted issue and is unrevoked only if no revocation followed it |
| AuthChain.HandlerIffEntitled | gateway/internal/middleware/chain.go:83-183 | in any run, with anything between Verify and Resolve, a protected handler runs if and only if there is no query key and the bearer token was issued, never revoked, is unexpired and permits the route, and it runs for the subject the token was issued to |
| AuthChain.AuthorizedIffPermitted | gateway/internal/middleware/runtime.go:142-193 | administrators may call anything; others need "supply:read" to read and "supply:write" for anything else under /api/v1/supply, and "platform:admin" under /api/v1/platform, by name or by a ":*" scope over a prefix |
| AuthChain.BearerIff | gateway/internal/middleware/chain.go:246-253 | a header yields a token exactly if it is "Bearer " and the token, with white space around it |
| AuthChain.ProtectedPaths | gateway/internal/middleware/chain.go:203-228 | which paths are protected, for given prefixes and by default |
| AuthChain.BearerOutcome | gateway/internal/middleware/chain.go:83-183 | outcome, principal and audit event for the bearer of an issued token, from the history alone: inactive if revoked or expired, denied if the route is not permitted, else served |
| AuthChain.StrangerOutcome | gateway/internal/middleware/chain.go:57-183 | outcome and audit event for everybody else: query key, open path, missing dependencies, no bearer, unknown token |
| AuthChain.OneAuditEventPerRequest | gateway/internal/middleware/chain.go:57-183 | in any traffic, requests overlapping in any way: one audit event per finished request that carries a query key or is protected with dependencies ready, none for any other, and as many success events as handler calls with a principal |
| AuthChain.Gateway.IssueToken | gateway/internal/middleware/runtime.go:45-80 | accepts exactly a subject and role that are not blank, some scope and a positive ttl |
| AuthChain.Gateway.RevokeToken | gateway/internal/middleware/runtime.go:121-131 | marks a known record revoked |
| AuthChain.Gateway.ResolveStatus | gateway/internal/middleware/runtime.go:108-140 | applies expiry and reports the status |
| AuthChain.Gateway.MatchesPrefix | gateway/internal/middleware/chain.go:216-228 | true exactly if some prefix matches |
| AuthChain.Gateway.ServeRequest | gateway/internal/middleware/chain.go:83-183 | outcome, audit events and runtime of one request, as the theorems' decision function gives them |
| BudgetLedger.LedgerBalances | llm-gateway-competitors/litellm-wheel-src/litellm/budget_manager.py:121-183 | from any balanced state, after any operations, a user's current cost is the sum of the model costs and the sum of the charges since the last create or reset |
| BudgetLedger.ModelsBalance | llm-gateway-competitors/litellm-wheel-src/litellm/budget_manager.py:121-183 | and model by model: what a user has spent on a model is the sum of the charges for that model since the last create or reset |
| BudgetLedger.PeriodicResetsAreSpaced | llm-gateway-competitors/litellm-wheel-src/litellm/budget_manager.py:185-205 | across creates and all, successive duration-driven resets of a user are at least one full duration apart, if no create brings the reset forward: its created_at is not before the last such reset, or a full duration has passed since |
| BudgetLedger.BackdatedCreateResetsEarly | llm-gateway-competitors/litellm-wheel-src/litellm/budget_manager.py:76-106 | after any create that does, some later walk resets the user again too early, so the condition is exact |
| BudgetLedger.DefaultCreatedAtResetsEarly | llm-gateway-competitors/litellm-wheel-src/litellm/budget_manager.py:76-205 | with created_at left to its default two daily resets come two seconds apart |
| BudgetLedger.TotalUpdate | llm-gateway-competitors/litellm-wheel-src/litellm/budget_manager.py:158-163 | changing one model's cost changes the total by the difference |
| BudgetLedger.BudgetManager.CreateBudget | llm-gateway-competitors/litellm-wheel-src/litellm/budget_manager.py:76-106 | replaces the entry, with 1, 7, 28 or 365 days; an unsupported duration raises only after that |
| BudgetLedger.BudgetManager.UpdateCost | llm-gateway-competitors/litellm-wheel-src/litellm/budget_manager.py:121-166 | adds the cost to the total and to that model alone; no input or no user is an error without effect |
| BudgetLedger.BudgetManager.ResetCost | llm-gateway-competitors/litellm-wheel-src/litellm/budget_manager.py:180-183 | zero total and empty breakdown |
| BudgetLedger.BudgetManager.ResetUserOnDuration | llm-gateway-competitors/litellm-wheel-src/litellm/budget_manager.py:185-200 | resets exactly when 86400 seconds per day of the duration have passed |
| BudgetLedger.BudgetManager.UpdateBudgetAllUsers | llm-gateway-competitors/litellm-wheel-src/litellm/budget_manager.py:202-205 | every due user reset, no other entry changed; a malformed entry stops the walk |
| SseFraming.RoundTripIffSafe | gateway/internal/handler/handler.go:182-189 | reading a written stream gives the same payloads if and only if none contains LF, ends in CR or is "[DONE]" |
| SseFraming.ChunksRoundTrip | gateway/internal/adapter/openai_adapter.go:190-248 | with a codec that inverts itself and writes safe payloads, the chunks read are the chunks written |
| SseFraming.ReadLines | gateway/internal/adapter/openai_adapter.go:190-248 | for arbitrary lines the loop emits, in order, exactly the decodable payloads before the first "[DONE]" |
| SseFraming.LineYields | gateway/internal/adapter/openai_adapter.go:190-248 | a line yields what follows its sixth character if it starts with "data:" and goes on, and nothing otherwise |
| SseFraming.WriteStream | gateway/internal/handler/handler.go:182-189 | a frame "data: " payload LF LF for each payload, then the end marker framed the same way |
| SseFraming.StreamPayloads | gateway/internal/adapter/openai_adapter.go:190-205 | one-line payloads come back in order, each less one trailing CR, then the end marker |

## Left out

- The window between releasing the limiter's map lock and taking the bucket's or window's lock: limiter calls are atomic here.
- The gateway limiter's HTTP middleware, key extraction and response headers.
- IEEE rounding of costs, rates and token counts: they are real numbers here.
- Redis beyond a map with expiry and a lossy channel; the asynchronous verification counter.
- Settlements.SettlementService.Withdraw: checks and inserts atomically; the interleaving of its check, query and commit is the separate `Withdrawals` module.
- Outbox and compensation fields that no decision reads (payloads, error texts, timestamps of completion), and the order in which due events are fetched.
- Heap.HeapPush: heapq's exact list layout is not modelled, only that it is a heap of the right items.
- Lost updates between awaits of the scheduler's cache reads and writes: each call is atomic here.
- Scheduling.Scheduler.GetQueue: the cache's limit of 200 entries and its size limit per entry, which also drop queues, and a queue kept in Redis are not modelled.
- The query-key test, client addresses, request ids and the remote token runtime: inputs or omitted.
- JSON encoding, the scanner's line length limit and cancellation of a stream.
- Round-robin fairness: candidates come in map order, so it does not hold.
- HTTP handlers, configuration, bootstrap, alerts, cost calculation, packages, idempotency and encryption: plumbing or easy members.
