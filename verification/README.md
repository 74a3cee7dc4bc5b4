# HookSniff delivery core, modelled and verified in Dafny

HookSniff accepts webhooks, queues them in PostgreSQL and Redis, and delivers them
with workers that may crash at any point. This project models the parts of it where
a mistake is hard to see, and proves what they promise, for every input and every
run.

| file | what it models |
|---|---|
| `Lifecycle.dfy` | the four delivery tables, every transaction of the worker, and a state machine of workers, reapers, API writes, crashes and failed commits with a log of the delivery calls |
| `LifecycleEffects.dfy` | what one transaction changes, row by row and table by table |
| `LifecycleLease.dfy` | the invariant that every step keeps under the lease hypothesis |
| `LifecycleTheorems.dfy` | theorems on whole runs: send bound, nothing lost, numbering, finality of outcomes, what the guard is worth |
| `LifecycleOutcomes.dfy` | why a delivery ended as it did: the logged answers explain every recorded attempt and the outcome |
| `LifecycleProgress.dfy` | progress without faults, whatever the receivers answer; why the send bound needs its fault term |
| `LifecycleOverrides.dfy` | the runs in which the API's status writes contradict the worker's outcomes |
| `LifecycleGraded.dfy` | the send bound without the lease, graded by what disturbs a row |
| `LifecycleUnleased.dfy` | what still holds without the lease hypothesis, and runs that show what does not |
| `Store.dfy` | the worker's database code statement by statement on mutable tables, tied to the state machine |
| `CircuitBreaker.dfy`, `CircuitStore.dfy` | the circuit breaker over whole histories; its Redis copy and restarts; the API's in-memory twin is the same class with `persistent == false` |
| `Throttle.dfy` | counting window and exponential backoff over whole histories |
| `Backoff.dfy` | the retry delay in 32- and 64-bit arithmetic |
| `Glob.dfy` | the greedy matcher for event patterns, proved equal to the meaning of the pattern |
| `CountBuffer.dfy` | the buffered counter, one map operation per step, with a ledger |
| `DnsCache.dfy`, `TeamCache.dfy` | the bounded DNS cache; the two-level team cache |
| `StreamCodec.dfy`, `Numerals.dfy` | the Redis stream messages, both readers, and the integers in them |
| `Signing.dfy` | Standard Webhooks signatures over an abstract MAC (section 2 of RFC 2104) and base64 (section 4 of RFC 4648) |
| `Sanitize.dfy` | the tag stripper |
| `Options.dfy`, `Texts.dfy` | the option type; splitting a text by a character |

## The lifecycle and its lease hypothesis

A `Step` is one atomic move: accepting a delivery, publishing its queue row, the two
status writes of the API, a claim, the guard's read, a requeue, a delivery call, a
transaction that commits or fails to, a crash, one row of a reaper, a clean-up. A run is
any enabled sequence of steps; tasks of any number of workers interleave. The circuit and
FIFO gates are nondeterministic: a task past the guard may be requeued or may make its
call. A delivery call is one call of `deliver_with_routing`; the theorems count these
calls. How many requests one call sends (none for a blocked address, several for a
redirect or an e-mail target) is not part of this model. `Enabled(s, step, leased)` with `leased == true` adds the one assumption that the
reaper and the clean-up only touch rows that no live task holds. The code approximates it
by waiting five minutes. `LifecycleTheorems` and `LifecycleProgress` assume it.
`LifecycleUnleased` does not, and shows with concrete runs that the send bound, the single
outcome and the attempt numbering need it; `LifecycleGraded` says by how much the send
bound can be exceeded.

Some properties look unconditional and are not; each has its exact condition.

- "Active rows stay below their attempt limit, even without the lease" fails: the requeue
  arms write `status = 'pending'` without looking at the row, so they can revive a row
  that another task has just brought to its limit (`SpentRowRevived` is the run).
  `BelowLimitExactly` and `BelowLimitRuns` give the condition, and `LeaseNeverRevives`
  shows that the lease rules the case out.
- "Delivered implies an observed success" fails for test keys, which mark a queued
  delivery as delivered (api/src/routes/webhooks/create.rs:349-361), and "failed implies a
  dead letter" fails for a publish that is reported as failed (create.rs:319-322 and
  553-555). `NoFalseOutcome` names these two causes as the only ones, `OneOutcome` is the
  full agreement where neither wrote, and `LifecycleOverrides` holds the runs.
- "An outcome never changes" holds up to the same two writes: `OutcomeIsFinal` gives the
  status after any continuation as the last of them, and everything else stays.
- "No send after delivered" holds if and only if no task has passed the guard, as long as
  no failed publish rewrites the mark (`GuardExactly`); after a committed success it holds
  always (`NoSendAfterSuccess`).

Other properties with an exact condition:

- A restart of the breaker is transparent for every continuation if the key was still in
  Redis; if it had expired, exactly where the forgotten failure streak does not matter
  (`RestartExactly`; for the first failure after the expiry: the threshold is 1, or the
  streak with that failure is still below it).
- Between flushes the buffered counts are conserved exactly if what landed in the gap
  equals what lost replies have doubled (`LostIsTheGap`).

## Where the code and its comments disagree

The model follows the code.

- HalfOpen admits any number of calls, not one probe (worker/src/circuit_breaker.rs:267-269). `AllowFormula` shows that the state has no influence on the answer.
- A zombie reset does not raise `attempt_count` (worker/src/queue.rs:84-94), so a row whose worker always crashes is never terminated (`CrashesNeverTerminate`).
- The worker hands an XAUTOCLAIM reply to its XREADGROUP reader (worker/src/main.rs:315-322) and recovers no claimed entry (`WorkerMisreadsClaim`).
- The flush removes entries "to avoid losing concurrent increments" (api/src/webhook_count_buffer.rs:69); increments between a key's read and its removal are lost, and exactly those (`LostIsTheGap`).
- A failed team lookup caches the calling customer's own limits under the team's key (api/src/billing/mod.rs:119-137), so "the team's value" may be another member's for up to 70 seconds (`FallbackIsShared`, `FallbackLastsSeventySeconds`).
- The retry delay is meant to be at most 1800 seconds and positive; it is up to attempt 59, and in a release build, without overflow checks, wraps beyond (`BackoffExactly`); at attempts 60 to 63 the wrapped delay is no valid duration, and scheduling it ends the worker (`BackoffPanics`). The wrap is latent: every INSERT leaves the limit at 3 (`RetryDelayInRange`).
- The stream message round trip turns an empty trace id into none (`MessageRoundTrip`).
- The age of a signature's timestamp wraps, in a release build, at a distance of 2^63 seconds (`AgeIsDistance`).
- The throttle's bound holds for attempts that passed `check_allowed`. The Redis consumer calls it; the PostgreSQL path records attempts without it (worker/src/main.rs:1388, 1430, 1442), and ungated attempts are not bounded (`UngatedIsUnbounded`).

## Model

| member | source | states |
|---|---|---|
| LifecycleEffects.SettleEffect | worker/src/main.rs:1255-1443 | the whole effect of a settle on rows, deliveries and records, given its verdict |
| LifecycleEffects.SettleDecides | worker/src/main.rs:1255-1443 | the outcome from the answer alone: delivered on success; pending again exactly below the limit with status 429 or outside 400-499; dead-lettered exactly with another 400-499 or at the limit |
| LifecycleEffects.ReapEffect | worker/src/queue.rs:40-103 | a stuck row below its limit only becomes pending; at its limit it is dead-lettered with one more attempt and its delivery fails |
| LifecycleEffects.OrphanEffect | worker/src/queue.rs:178-190 | an orphan without a row gets a pending row with no attempt and a limit of three; one with a row is left alone |
| LifecycleEffects.ClaimEffect | worker/src/main.rs:973-1040 | a claim marks the row as processing and gives its task the next attempt number |
| LifecycleLease.ReapKeeps | worker/src/queue.rs:19-145 | the zombie reaper keeps the invariant, and its dead-letter arm never fires |
| LifecycleLease.ReapOrphanKeeps | worker/src/queue.rs:151-200 | the orphan reaper never creates a second row for a delivery |
| LifecycleLease.ClaimKeeps | worker/src/main.rs:973-993 | a claim gives the row to one task, with the next attempt number |
| LifecycleLease.CheckKeeps | worker/src/main.rs:1042-1067 | the guard's read keeps the invariant |
| LifecycleLease.SkipKeeps | worker/src/main.rs:1052-1065 | the guard's skip keeps the invariant, and happens only where the API wrote the status |
| LifecycleLease.OverrideKeeps | api/src/routes/webhooks/create.rs:319-361 | so do the two unconditional status writes of the API |
| LifecycleLease.RequeueKeeps | worker/src/main.rs:1069-1104 | a gate requeue, written or not, loses nothing |
| LifecycleLease.SettleKeeps | worker/src/main.rs:1255-1443 | every outcome arm, committed or not, keeps the invariant |
| LifecycleLease.MissingSecretKeeps | worker/src/main.rs:1127-1170 | so does the missing-secret arm |
| LifecycleLease.CleanUpKeeps | api/src/jobs/retention.rs:19-35 | deleting finished rows keeps the outcome of their deliveries |
| LifecycleLease.StepKeeps | worker/src/main.rs:961-1443 | every step keeps the invariant of tables, tasks and log |
| LifecycleTheorems.EveryRunIsSafe | worker/src/main.rs:961-1443 | the invariant holds in every reachable state |
| LifecycleTheorems.SendAccount | worker/src/main.rs:1040-1443 | delivery calls for a row are exactly its recorded attempts, plus those wiped out by a fault, plus the one in flight |
| LifecycleTheorems.SendBound | worker/src/main.rs:1040-1443 | delivery calls for a row never exceed its attempt limit plus the crashes and failed commits of its tasks |
| LifecycleTheorems.NothingLost | worker/src/main.rs:712-818 | whatever the API wrote: a published delivery has an active row or is no longer pending, and a dead letter exactly when its row says so |
| LifecycleTheorems.OneOutcome | worker/src/main.rs:712-818 | unless the API wrote the status: pending exactly while unpublished or with an active row, failed exactly with its dead letter, and in step with its row |
| LifecycleTheorems.AttemptsNumbered | worker/src/main.rs:794-818 | the committed attempt rows of a delivery are numbered 1, 2, 3, ... without gap or repeat |
| LifecycleTheorems.AttemptCountIsExact | worker/src/main.rs:794-818 | `attempt_count` is the number of committed attempts, within the limit, and below it while active |
| LifecycleTheorems.OutcomeIsFinal | worker/src/main.rs:1042-1067 | a published delivery with an outcome and no active row is never called for or recorded again in any continuation, and its status is exactly the last API write, if any |
| LifecycleTheorems.OutcomeCloses | worker/src/main.rs:1255-1434 | a committed success or dead letter closes its delivery, with that status |
| LifecycleTheorems.NoSendAfterSuccess | worker/src/main.rs:1264-1323 | once a success commit has landed, no later step of any run calls for that delivery or dead-letters it; only the API can rewrite its status |
| LifecycleTheorems.GuardHolds | worker/src/main.rs:1042-1067 | a delivery marked as delivered, by whomever, is not called for again while no task is past the guard and no failed publish rewrites the mark |
| LifecycleTheorems.GuardExactly | worker/src/main.rs:1042-1067 | it can be called for again if and only if some task has passed the guard |
| LifecycleOutcomes.WhyItEnded | worker/src/main.rs:1255-1443 | all recorded attempts but the last were retryable failures below the limit; the last was a success if delivered, and if failed a failure that is not retryable or at the limit, or the secret was missing |
| LifecycleOutcomes.RetriesUseUpTheLimit | worker/src/main.rs:1330-1443 | a delivery whose calls all fail with 429 or outside 400-499 fails only after exactly `limit` recorded attempts, or for want of a secret |
| LifecycleProgress.FinishTask | worker/src/main.rs:1025-1443 | a live task on a pending delivery finishes on its own in at most three steps, with an outcome or a pending row |
| LifecycleProgress.AlwaysProgresses | worker/src/queue.rs:19-200 | from every reachable state, without a further crash, failed commit or requeue and whatever the receiver answers to each attempt, a pending delivery gets its outcome within 3 + 4 * limit steps; it is delivered if the answers are successes and no task already holds another one |
| LifecycleProgress.CrashesNeverTerminate | worker/src/queue.rs:84-94 | a worker that dies after every call: n calls and n faults with a limit of one, so the bound is tight |
| LifecycleOverrides.TestKeyDelivers | api/src/routes/webhooks/create.rs:349-361 | the run in which row and delivery end as delivered without any call |
| LifecycleOverrides.TestKeyTooLate | api/src/routes/webhooks/create.rs:349-361 | the run in which a delivery is called for after that mark and ends as failed |
| LifecycleOverrides.PublishFailsUnrecorded | api/src/routes/webhooks/create.rs:319-322 | the run in which a delivery is failed with neither row nor dead letter |
| LifecycleOverrides.PublishFailsOverSuccess | api/src/routes/webhooks/create.rs:553-555 | the run in which a publish reported as failed overwrites a recorded success |
| LifecycleOverrides.PublishFailsUndoesMark | api/src/routes/webhooks/create.rs:319-361 | the run in which it undoes a test key's mark before the guard can see it |
| LifecycleUnleased.StepKeepsSane | worker/src/main.rs:961-1443 | what rows, deliveries and records keep in every step without the lease |
| LifecycleUnleased.StepKeepsHonest | worker/src/main.rs:1052-1065 | no step claims a success without one, or a test key's mark, in the log |
| LifecycleUnleased.NoFalseOutcome | worker/src/main.rs:712-818 | even without the lease: delivered implies an observed success or a test key's mark, failed implies a dead letter or a failed publish, a dead-lettered row its record |
| LifecycleUnleased.BelowLimitExactly | worker/src/main.rs:1069-1104 | a step keeps active rows below the limit if and only if it is not a requeue of a spent row |
| LifecycleUnleased.BelowLimitRuns | worker/src/main.rs:1069-1104 | the same over whole runs, if and only if |
| LifecycleUnleased.ReaperOnlyResets | worker/src/queue.rs:40-103 | while rows are below the limit, the reaper's dead-letter arm cannot fire |
| LifecycleUnleased.LeaseNeverRevives | worker/src/main.rs:1069-1104 | under the lease hypothesis no requeue revives a spent row |
| LifecycleUnleased.SpentRowRevived | worker/src/main.rs:1076-1083 | the run in which an active row has used up its limit |
| LifecycleUnleased.LeaseIsNeeded | worker/src/queue.rs:21-37 | without the lease: more sends than the limit with no fault, two outcomes for one delivery, a repeated attempt number |
| LifecycleUnleased.GuardIsNotEnough | worker/src/main.rs:1042-1067 | without the lease a delivered delivery can be sent again |
| LifecycleGraded.GradedSendBound | worker/src/main.rs:1040-1443 | in every run: calls for a row are at most limit * (1 + reaps of the held row + requeues that set it back) + its faults |
| LifecycleGraded.GradedBoundIsTight | worker/src/queue.rs:21-37 | for every n a run with n disturbances and no fault that makes exactly that many calls |
| LifecycleGraded.StepWithinBudget | worker/src/main.rs:1040-1443 | what a step adds to the calls made and still possible is one round for a disturbance, or a fault |
| LifecycleGraded.LeaseNeverDisturbs | worker/src/queue.rs:21-37 | the lease hypothesis rules the disturbances out |
| Store.ReapAllIsRun | worker/src/queue.rs:40-103 | one reaper transaction over a batch is a run of single-row steps |
| Store.TaskRuns | worker/src/main.rs:1025-1443 | the steps of a delivery task are a run of the state machine that ends the task |
| Store.TaskMeans | worker/src/main.rs:1042-1203 | from the world's answers: one call exactly if not yet delivered, both gates allow, the secret is there and the call answers; a delivered delivery or a closed gate changes the row's status at most; a missing secret fails the delivery without an attempt |
| Store.Database.DeadLetterDelivery | worker/src/main.rs:712-787 | an error exactly when the delivery is gone; otherwise all of the transaction or, after a failed commit that is still Ok, none of it |
| Store.Database.RetryDelivery | worker/src/main.rs:790-818 | an error exactly when the delivery is gone; otherwise all of the retry transaction or none of it |
| Store.Database.MarkDelivered | worker/src/main.rs:1264-1323 | an error exactly when the delivery is gone; otherwise all of the success transaction or none of it |
| Store.Database.MarkUnsignable | worker/src/main.rs:1135-1169 | all of the missing-secret transaction or none of it |
| Store.Database.RecordOutcome | worker/src/main.rs:1255-1443 | the row's new status from the response, attempt and limit alone; an error, and no change, when the delivery is gone |
| Store.Database.ProcessItem | worker/src/main.rs:1025-1443 | whether the call is made and what each closed gate, missing secret, error and answer leaves, in the world's answers; and the tables are those of the task's run |
| Store.Database.ReapZombies | worker/src/queue.rs:40-145 | the reaper's loop equals the fold of its single-row transaction, or nothing when the commit fails |
| Store.Database.ClaimBatch | worker/src/main.rs:973-993 | a claim takes the first 50 eligible rows, marks exactly those, and hands them out with the next attempt number |
| Store.Database.ReapOrphans | worker/src/queue.rs:151-200 | the orphan inserts, with the unique delivery id, are a run of the state machine |
| Glob.FindIsLeftmost | worker/src/fanout.rs:377-378 | the substring search answers the leftmost occurrence, or that there is none |
| Glob.MatchesIsFits | worker/src/fanout.rs:353-385 | filling the stars of the pattern is the same as cutting the event into gaps and parts |
| Glob.GapAbsorbs | worker/src/fanout.rs:376-382 | a gap may grow at the front without losing a match |
| Glob.LeftmostIsEnough | worker/src/fanout.rs:376-382 | the exchange argument: if any placement of a part leads to a match, the leftmost does |
| Glob.PartsMatch | worker/src/fanout.rs:361-385 | the greedy loop answers exactly whether the parts fit, with `pos` in range |
| Glob.PatternMatches | worker/src/fanout.rs:353-385 | true if and only if some replacement of the stars turns the pattern into the event |
| Glob.PlainPattern | worker/src/fanout.rs:357-359 | without a star a pattern matches itself only |
| Glob.OneStar | worker/src/fanout.rs:361-385 | one star stands for anything between the two ends, which may not overlap |
| CircuitBreaker.HistoryInvariants | api/src/circuit_breaker.rs:79-129 | the failure count is the trailing failure run, Closed exactly below the threshold, and total opens is the sum over maximal runs |
| CircuitBreaker.OpenSinceLastFailure | worker/src/circuit_breaker.rs:297-321 | an open circuit was opened at the last failure; HalfOpen means that the cooldown has passed since |
| CircuitBreaker.AllowFormula | worker/src/circuit_breaker.rs:261-283 | after any history the answer is: fewer trailing failures than the threshold, or the last failure at least the cooldown ago |
| CircuitBreaker.FailureFreeAnswers | worker/src/circuit_breaker.rs:261-295 | until the next failure, answers depend only on the first state and whether a success came |
| CircuitStore.RestoreIsClose | worker/src/circuit_breaker.rs:131-257 | persist then load keeps counts and state, and the opening instant to within -1 and +2 ms |
| CircuitStore.PersistedForm | worker/src/circuit_breaker.rs:205-235 | the stored names, counts and opening milliseconds |
| CircuitStore.RestoredForm | worker/src/circuit_breaker.rs:131-203 | how stored names are read; unknown ones count as closed, an open one without an instant as opened now |
| CircuitStore.RedisMirrors | worker/src/circuit_breaker.rs:205-321 | after every history Redis holds the current circuit, or there is nothing to hold |
| CircuitStore.RestartKeepsState | worker/src/circuit_breaker.rs:131-203 | while the key lives, a restart keeps streak, open count and state |
| CircuitStore.RestartKeepsGate | worker/src/circuit_breaker.rs:131-257 | right after a restart the answer is the one without a restart: outside the rounding margin while the key lives, always once it has expired |
| CircuitStore.RestartTransparent | worker/src/circuit_breaker.rs:131-257 | the same for every answer until the next recorded failure |
| CircuitStore.RestartWhileLive | worker/src/circuit_breaker.rs:131-257 | while the key lives: from the first recorded success or failure on the circuit is the very one without the restart |
| CircuitStore.RestartAfterExpiry | worker/src/circuit_breaker.rs:244-252 | after the expiry, over every continuation, the answers agree if and only if the forgotten streak does not matter |
| CircuitStore.RestartExactly | worker/src/circuit_breaker.rs:131-257 | both together: with and without the restart the answers agree if and only if the key was there or the streak does not matter |
| CircuitStore.FirstFailureAfterExpiry | worker/src/circuit_breaker.rs:244-252 | for the first failure after the expiry: they agree if and only if the threshold is at most 1 or the old run with this failure stays below it |
| CircuitStore.ExpiryForgetsStreak | worker/src/circuit_breaker.rs:244-252 | a run in which the streak matters |
| CircuitStore.FitsFormula | worker/src/circuit_breaker.rs:261-283 | a circuit that follows its history answers by the stateless formula |
| CircuitStore.Manager.AllowRequest | worker/src/circuit_breaker.rs:261-283 | after any interleaved history of all endpoints, the answer is the formula on this endpoint's own calls; its next state in memory and Redis; other endpoints unchanged |
| CircuitStore.Manager.RecordSuccess | worker/src/circuit_breaker.rs:285-295 | the same for a success; an unknown endpoint stays unknown |
| CircuitStore.Manager.RecordFailure | worker/src/circuit_breaker.rs:297-321 | the same for a failure |
| CircuitStore.Manager.PersistCircuit | worker/src/circuit_breaker.rs:205-257 | one key written, with three cooldowns to live; no write for a cooldown of zero |
| CircuitStore.Manager.LoadFromRedis | worker/src/circuit_breaker.rs:131-203 | a new process finds exactly the unexpired circuits |
| Throttle.GatedWaitsOut | worker/src/throttle.rs:189-246 | in a gated history each overflow has waited out all backoffs before it |
| Throttle.OverflowCost | worker/src/throttle.rs:189-246 | the k-th overflow of a window needs a window as long as the k - 1 backoffs before it, for every k |
| Throttle.SpentClosedForm | worker/src/throttle.rs:228-242 | closed form of those backoffs: doubling up to the sixth, then 32 units each |
| Throttle.GatedThrottleBound | worker/src/throttle.rs:189-246 | for k up to 7: base * (2^(k-1) - 1) is at most the window |
| Throttle.CountIsExact | worker/src/throttle.rs:207-256 | the count is the number of attempts recorded since the window started or, if later, since the last success; none is past the window's end |
| Throttle.CountsTheWindow | worker/src/throttle.rs:207-256 | without a success since the window started these are all attempts of the window |
| Throttle.WindowIsExact | worker/src/throttle.rs:216-224 | the window starts at the first attempt, then at each attempt recorded more than the window after the last start, and never else |
| Throttle.WaitIsExact | worker/src/throttle.rs:189-256 | check_allowed from the history alone: refused exactly until the last attempt over the limit since the last success plus its backoff, with exactly the remaining time |
| Throttle.DefaultRefusals | worker/src/throttle.rs:51-59 | in numbers for the default configuration: 5 s at the eleventh attempt of a minute, doubling to 160 s; a success lifts it |
| Throttle.DefaultAtMostFourteen | worker/src/throttle.rs:51-59 | with the default configuration at most 14 attempts count in one window, after any gated history, successes included |
| Throttle.UngatedIsUnbounded | worker/src/main.rs:1388 | n attempts recorded at one instant without the gate count n, so only a gated history stops at 14 |
| Throttle.WaitAtMost | worker/src/throttle.rs:189-246 | gated or not, a wait never exceeds 32 times the base |
| Throttle.Manager.CheckAllowed | worker/src/throttle.rs:189-204 | however endpoints interleave: refused exactly until the instant the endpoint's own history gives, with the remaining time, never more than 32 times the base |
| Throttle.Manager.RecordAttempt | worker/src/throttle.rs:207-246 | next state and history of one endpoint; others unchanged |
| Throttle.Manager.RecordSuccess | worker/src/throttle.rs:249-256 | a success resets count and backoff; others unchanged |
| Backoff.Delay | worker/src/helpers.rs:103-108 | the wrapped product for every exponent: exact to 58, negative from 59 to 62, zero after |
| Backoff.BackoffExactly | worker/src/helpers.rs:103-108 | the delay is the intended one, and positive, if and only if the attempt is at most 59 (and not the least 32-bit number) |
| Backoff.BackoffWraps | worker/src/helpers.rs:103-108 | inputs that show it: a delay of -2^60 seconds at attempt 60, and of 0 at every attempt from 64 on |
| Backoff.BackoffPanics | worker/src/main.rs:1434-1436 | scheduling the retry leaves the range of a duration, which ends the worker, if and only if the attempt is 60 to 63 |
| Backoff.RetryDelayInRange | worker/src/main.rs:1433-1436 | every retry of a task with a limit up to 60 is delayed by 30 to 1800 seconds, as intended |
| Backoff.BackoffGrows | worker/src/helpers.rs:103-108 | up to there: never shrinking, doubling to attempt 6, capped from attempt 7, always within 30 and 1800 |
| CountBuffer.StepKeeps | api/src/webhook_count_buffer.rs:50-114 | every step of increments and flusher keeps the ledger balanced for every customer |
| CountBuffer.StepSwallows | api/src/webhook_count_buffer.rs:63-71 | what one step adds to the swallowed increments: exactly an increment on a key read and not yet removed |
| CountBuffer.RunKeeps | api/src/webhook_count_buffer.rs:50-114 | the ledger over every interleaving |
| CountBuffer.ExactAccount | api/src/webhook_count_buffer.rs:50-114 | initial count plus increments plus what lost replies doubled = database + buffer + in flight + without a customer row + lost |
| CountBuffer.LostIsTheGap | api/src/webhook_count_buffer.rs:63-114 | between flushes the loss is exactly the increments in the gap, and counts are conserved if and only if that equals what lost replies doubled |
| CountBuffer.NothingDoubled | api/src/webhook_count_buffer.rs:84-112 | without a lost reply nothing is doubled, so then the gap alone decides |
| CountBuffer.RowsAreMatched | api/src/webhook_count_buffer.rs:84-94 | a customer with a row is never left unmatched |
| CountBuffer.Buffer.Increment | api/src/webhook_count_buffer.rs:50-55 | one customer's count grows, the others stay |
| CountBuffer.Buffer.PendingCount | api/src/webhook_count_buffer.rs:117-119 | the sum of the customer's increments since the last flush that succeeded |
| CountBuffer.Buffer.ReadEntries | api/src/webhook_count_buffer.rs:63-67 | one entry per key with its count, each key once |
| CountBuffer.Buffer.RemoveEntries | api/src/webhook_count_buffer.rs:69-72 | removing them empties an undisturbed buffer |
| CountBuffer.Buffer.RestoreEntries | api/src/webhook_count_buffer.rs:103-112 | restoring gives back the buffer as it was |
| CountBuffer.Buffer.Flush | api/src/webhook_count_buffer.rs:58-114 | an undisturbed flush credits every count if the update applies and restores every count unless it is reported as applied |
| DnsCache.InsertAgrees | worker/src/dns_cache.rs:39-61 | an insert keeps the agreement of cache and history: latest insert per host, bounded size, cached hosts upward closed in time |
| DnsCache.CleanupAgrees | worker/src/dns_cache.rs:64-66 | so does a clean-up |
| DnsCache.LookupHits | worker/src/dns_cache.rs:29-37 | a lookup hits exactly while the entry is younger than the time to live |
| DnsCache.CleanupKeeps | worker/src/dns_cache.rs:64-66 | a clean-up keeps exactly those entries |
| DnsCache.CleanFollowsStep | worker/src/dns_cache.rs:39-66 | whatever a cache with expired entries does on an insert or clean-up, the cleaned one can do too |
| DnsCache.FullFollowsStep | worker/src/dns_cache.rs:39-66 | and the other way round |
| DnsCache.CleanupUnobservable | worker/src/dns_cache.rs:64-66 | over every continuation of inserts and clean-ups, the behaviours with and without a clean-up are the same: same answers at every present and future moment, in both directions |
| DnsCache.HostCache.Get | worker/src/dns_cache.rs:29-37 | a hit is the latest insert of that host, and younger than the time to live |
| DnsCache.HostCache.Insert | worker/src/dns_cache.rs:39-50 | the entry is there, at most one oldest entry went, and the size is at most max(1, limit) |
| DnsCache.HostCache.EvictOldest | worker/src/dns_cache.rs:52-61 | exactly one entry goes, and none is older |
| DnsCache.HostCache.Cleanup | worker/src/dns_cache.rs:64-66 | exactly the entries younger than the time to live stay |
| TeamCache.FreshFromDatabase | api/src/billing/mod.rs:63-140 | if no lookup of this team fell back in the last 70 seconds, a served value is one the database held for it less than 70 seconds before |
| TeamCache.ServeBacked | api/src/billing/mod.rs:40-48 | a live entry has a source within its level's age |
| TeamCache.MissStores | api/src/billing/mod.rs:101-139 | on a miss the database's value, or the caller's limits, are answered and stored for 10 000 ms and 60 000 ms |
| TeamCache.ServesWhileLive | api/src/billing/mod.rs:80-99 | that value is served at every moment of these times, whatever the database then holds and whoever asks |
| TeamCache.AsksAgain | api/src/billing/mod.rs:40-48 | and no longer: without Redis the database is asked again from 10 000 ms on |
| TeamCache.OthersKeep | api/src/billing/mod.rs:50-55 | lookups of other teams neither lose nor change a live value |
| TeamCache.FallbackIsShared | api/src/billing/mod.rs:119-137 | after a failed lookup every caller is served the first caller's limits from memory for ten seconds, even if the team exists by then |
| TeamCache.FallbackLastsSeventySeconds | api/src/billing/mod.rs:88-137 | and through Redis for 60 seconds, at the end of which they are promoted for ten more |
| TeamCache.Resolver.Lookup | api/src/billing/mod.rs:80-140 | memory, then Redis, then the database; the source is less than 10 s old without Redis, 60 s outside memory, 70 s otherwise |
| TeamCache.Resolver.Resolve | api/src/billing/mod.rs:63-140 | the whole function with those three ages in numbers; without a team the caller's own limits and no change |
| TeamCache.Resolver.Promote | api/src/billing/mod.rs:95-99 | a Redis hit is copied into memory |
| TeamCache.Resolver.QueryAndStore | api/src/billing/mod.rs:101-139 | a miss queries, falls back, and fills both levels |
| TeamCache.Resolver.InsertMemory | api/src/billing/mod.rs:50-55 | the value expires in 10 000 ms; below 1000 entries nothing else changes, from there on exactly the expired ones go |
| Numerals.ParsePrint | api/src/queue.rs:95-98 | parsing undoes printing for every integer of the width |
| Numerals.PrintsDecimal | api/src/queue.rs:95-98 | printing is decimal, digit by digit |
| Numerals.ParseTakes | api/src/queue.rs:242-249 | parsing takes one sign at most, digits only, and a number of the range |
| StreamCodec.ExtractFields | api/src/queue.rs:259-287 | the pair-walking loop computes the left-to-right field map, skipping unusable pairs and an odd last item |
| StreamCodec.ReadStreamResult | api/src/queue.rs:171-192 | the API's nested loops compute the messages of the reply, in order |
| StreamCodec.ReadEntries | worker/src/main.rs:849-884 | the worker's inner loop computes the entries of one stream |
| StreamCodec.ReadXreadgroup | worker/src/main.rs:827-887 | the worker's reader computes the entries of the reply, in order |
| StreamCodec.PairMapFinds | api/src/queue.rs:65-102 | with distinct keys every written pair can be looked up |
| StreamCodec.MessageRoundTrip | api/src/queue.rs:65-256 | reading what enqueue wrote returns the message if and only if its trace id is not the empty string |
| StreamCodec.LeastMessage | api/src/queue.rs:214-256 | the entry with only the two ids is read, with these values for everything it leaves out |
| StreamCodec.WireFormat | api/src/queue.rs:214-256 | the ten field names and how each value is read, with the values for numbers that do not parse |
| StreamCodec.OddValues | api/src/queue.rs:259-287 | integers are printed, nil is empty, arrays and names that are no text are skipped; only the worker takes simple strings |
| StreamCodec.EntryIsRead | api/src/queue.rs:214-256 | an entry is read as a message if and only if both names are among its pairs, wherever and however often |
| StreamCodec.ReceivedExactly | api/src/queue.rs:241 | what a batch becomes, message by message: only an empty trace id changes |
| StreamCodec.StreamRoundTrip | api/src/queue.rs:65-256 | every batch comes back, ids and contents, in order; unchanged if and only if no trace id is empty |
| StreamCodec.ClaimRoundTrip | api/src/queue.rs:195-211 | a claim reply carries the same messages as a read reply |
| StreamCodec.ReadersAgree | worker/src/main.rs:827-887 | on every reply without simple strings, the API's messages are the worker's entries that carry both ids |
| StreamCodec.ClaimRecovers | api/src/queue.rs:195-211 | the messages of a claim reply, in order, are those of the claimed entries |
| StreamCodec.ClaimRecoversExactly | api/src/queue.rs:195-211 | their ids are exactly those of the claimed entries that have both names, in order |
| StreamCodec.WorkerMisreadsClaim | worker/src/main.rs:315-322 | exactly what the worker's reader finds in a claim reply: at most one bogus entry named after a field |
| StreamCodec.WorkerRecoversNothing | worker/src/main.rs:315-322 | no claimed id and no field is recovered, when ids are not field names |
| Signing.SameBytes | common/src/signing.rs:144-152 | the XOR/OR fold says equal if and only if the byte strings are |
| Signing.Verify | common/src/signing.rs:93-157 | the token loop decides the verdict, with the three errors in the code's order |
| Signing.SplitIsParts | common/src/signing.rs:127-132 | the tokens are exactly the texts between neighbouring spaces |
| Signing.AgeIsDistance | common/src/signing.rs:108-116 | the age test is the distance test, up to an exactly stated wrap-around |
| Signing.AgeWraps | common/src/signing.rs:109 | inputs on both sides of it |
| Signing.VerifiesExactly | common/src/signing.rs:93-157 | Ok if and only if the stamp is timely (or wrapped) and some part of the header decodes to the MAC |
| Signing.SignThenVerify | common/src/signing.rs:70-157 | what was signed verifies in time, whatever signatures surround it |
| Signing.OnlyTheSignature | common/src/signing.rs:127-154 | with a canonical decoder a header is accepted if and only if it contains the signature itself |
| Signing.SecretRoundTrip | common/src/signing.rs:48-64 | a secret names the same key with and without its prefix |
| Signing.ContentIsInjective | common/src/signing.rs:76 | without dots in id and timestamp, signed texts are equal only for equal parts |
| Signing.SignsTheText | common/src/signing.rs:70-85 | what reaches the MAC is id.timestamp.body: the id before the first dot, the timestamp before the second, the body after; the signature is "v1," and its base64 |
| Signing.AcceptsTheText | common/src/signing.rs:93-157 | accepted if and only if the stamp is within the tolerance, 300 seconds unless given (or wrapped), and some part is "v1," and the base64 of the MAC of this text |
| Signing.RejectsWith | common/src/signing.rs:104-157 | which error: no number, too old or too new with age and tolerance, otherwise a mismatch |
| Signing.SecretsDecode | common/src/signing.rs:48-64 | base64 with or without "whsec_"; what is no base64 is the key byte for byte, prefix included |
| Signing.Trims | common/src/signing.rs:129 | blanks, tabs and line ends around a token do not matter |
| Signing.ParsedHasNoDot | common/src/signing.rs:104-106 | a timestamp that parses has no dot |
| Sanitize.StripIsKept | api/src/validation.rs:55-57 | the pass removes exactly the characters that lie in a tag |
| Sanitize.StripFixes | api/src/validation.rs:55-57 | a text is unchanged if and only if no '<' comes before a '>' |
| Sanitize.SanitizedIsClean | api/src/validation.rs:53-65 | no tag survives, at most 500 characters, a prefix of the text outside tags and all of it when shorter |
| Sanitize.SanitizeTwice | api/src/validation.rs:53-65 | sanitizing twice is sanitizing once; exactly clean short texts are untouched |

## Left out

- Deliveries served from the Redis stream: the consumer's end-to-end behaviour, its dead letters without a queue row (worker/src/main.rs:500-507), and a delivery that is on the stream and, still pending after ten minutes, put into the PostgreSQL queue as well. The lifecycle theorems are about deliveries that the PostgreSQL queue alone serves.
- FIFO order itself and the throttle's place in the delivery task: the gates are nondeterministic.
- The text of HTTP requests and SQL statements, Redis connections, notifications, metrics, tracing and e-mail.
- The SELECT of `reap_zombies` runs outside its transaction (worker/src/queue.rs:21-37); selection and update of a row are one atomic step here, and so are they for the orphan reaper (worker/src/queue.rs:151-200).
- A commit that took effect but was reported as failed: it leaves the tables of a committed step, which is how a run of the model has to show it.
- Archiving of deliveries and dead letters by the retention job: deliveries are never deleted in the model.
- `endpoints.failure_streak`, `avg_response_ms` and `processed_at`: no branch of the lifecycle reads them.
- `next_retry_at`, the activity of the endpoint and the age of a stuck row: the model lets a claim, retry or reap happen at any time, which includes every timing.
- Overflow of the counters `consecutive_failures`, `total_opens`, `attempt_count` and the buffered counts: they are unbounded here.
- Redis writes of the breaker that fail: every SETEX succeeds here (worker/src/circuit_breaker.rs:246-255 only logs an error), so a restart finds the latest state or an expired key.
- The requests of one delivery call: redirects, the token request of an e-mail target, blocked addresses.
- Redis writes out of order after the breaker's lock is released (worker/src/circuit_breaker.rs:274-275): calls are sequential in the restart theorems.
- The Redis copy of the throttle: only its behaviour in memory is modelled.
- The check-then-act gap between `check_allowed` and `record_attempt` of concurrent tasks: histories are sequential.
- A second concurrent flusher of the counter, and the monthly reset of `webhook_count`.
- Concurrent calls inside `resolve_team_tracking`: each call is atomic.
- The `:stale` copy of a Redis cache entry, the hit counters, and undecodable cached JSON, which counts as a miss (`Io.redisReads`).
- Trimming of the stream by MAXLEN, and invalid UTF-8 in stream fields: texts are sequences of characters.
- `Signing.SignThenVerify`: HMAC and base64 are abstract; that different messages have different MACs is not claimed.
- `resolve_path` and `evaluate_conditions` of the fan-out: JSON walking that would add only easy members.
- `calculate_tiered_backoff`: the worker does not call it.
- Address checks, header scanning, plan limits, the dashboard, the CLI and the SDKs.
