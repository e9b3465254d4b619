# A verified model of ERA's state machines

This project models five parts of the ERA agent runtime in Dafny and proves what they promise over
every input, every run and every interleaving:

- **The agent loop** (`AgentLoop.dfy`, `AgentService.dfy`, `TaskManager.dfy`, `AgentBudget.dfy`,
  `AgentTrace.dfy`, `AgentAccounts.dfy`, `TaskOutcomes.dfy`, `LoopHistory.dfy`). A dependency-graph
  scheduler with bounded retries, bounded replanning, pause and resume, deadlock skipping and resource caps. The task
  manager and the loop are classes that update tasks in place; every transition also extends a ghost
  history of steps. `AgentTrace` proves what every legal history guarantees, and `TaskOutcomes` that
  every task was settled as the pass that ran it calls for. Brain, verifier, operator, the answers of
  the execution service and the clock are an arbitrary script.
- **The cron evaluator** (`Cron.dfy`, `Calendar.dfy`). Field parsing and the search that skips by
  month, day, hour and minute, over the proleptic Gregorian calendar (ISO 8601).
- **Limiters, breaker, retry** (`FixedWindow.dfy`, `RollingLimiter.dfy`, `CircuitBreaker.dfy`,
  `Retry.dfy`, `ProviderErrors.dfy`). The API's two-bucket fixed-window limiter, the providers'
  rolling-window limiter, the circuit breaker with its durable store, and the deadline-aware retry
  loop.
- **The audit chain** (`AuditChain.dfy`). Building and verifying hash-chained rows, and appends by
  concurrent transactions under the advisory lock.
- **The browser provider** (`ElementRefs.dfy`, `PageInspection.dfy`, `BrowserQueue.dfy`). The
  registry of element references, the simulator's inspection and resolution of them, and the
  protocol between calling threads and the single browser worker.

Time, cost and backoff are exact reals. Reading the clock, random tokens, hashing, signing, parsing
a page and the outcome of every external call are parameters. Statements about the two limiters and
about cooldowns assume a clock that does not go back where they say `Ordered`, and what ties an
inspection to the registry's runs assumes one where it says `ClockRuns`; nothing else does.

## What the proofs found

- `era/core/cron.py:161`: the error "could not find next cron schedule run within 5 years" is never
  raised. A schedule that admits a real date is found within 425 years and long before the iteration
  cap; one that admits none walks at most 156 iterations a year and runs into Python's year 9999
  limit first (`Cron.NextAfter`, `Cron.CapIsNotReached`).
- `era/core/cron.py:145`: the comment describes the POSIX rule that either day field may match; line
  147 requires both. The two agree on every date exactly when a field is a star or both admit every
  day; "the 13th or Friday" is a schedule on which they differ (`Cron.EitherRuleAgreesExactlyWhen`,
  `Cron.ThirteenthOrFriday`).
- `era/agents/loop.py:169`: `resume` called directly while a confirmation is unanswered, for example
  with no resolutions on two tasks of which one waits and the other depends on it, skips for good
  everything that depends on the waiting task, at any distance (`AgentTrace.UnansweredResumeSkips`,
  `AgentTrace.DependentsOfWaitingAreSkipped`). A normal end leaves nobody waiting exactly when every
  waiting task had a resolved confirmation (`AgentLoops.AgentLoop.Resume`). Only a direct call gets
  there: `continue_run` and its streaming form (`era/services/agent_service.py:103-116`, `148-167`)
  return when nothing is resolved, and a stored run only ever waits for one task and one confirmation
  (`AgentServices.AgentService.StartRun`, `AgentServices.AgentService.ContinueRun`).
- `era/core/circuit_breaker.py:19` promises a single half-open probe; line 182 admits every request
  (`CircuitBreakers.EveryProbeIsAdmitted`).
- `era/core/circuit_breaker.py:24` names nine kinds of failure that can never affect the breaker;
  line 94 consults the configured trip codes alone. No history of such failures opens the circuit
  exactly when the trip codes contain none of the nine, that is, lie within UNAVAILABLE,
  PROVIDER_ERROR and SIDE_EFFECT_UNKNOWN; tripping on AUTH, one AUTH failure opens it
  (`CircuitBreakers.DocumentedFailuresNeverOpen`, `CircuitBreakers.AuthFailureOpens`).
- `era/agents/task_manager.py:92`: at the attempt cap `retry` still increments the counter and leaves
  the task running. The loop never calls it there (`AgentTrace.Allowed` excludes it).
- `era/repositories/audit.py:52`: verification reports neither a shortened log
  (`AuditChain.PrefixesAreValid`) nor gaps in `seq`: logs with any gap verify
  (`AuditChain.GapsVerify`, `AuditChain.AnyNumberVerifies`). A log listed in the order of its
  numbers is numbered 1 to n exactly when it starts at 1 and its last number is its length
  (`AuditChain.NumberedExactlyWhenEndsFit`).
- TIMEOUT means "never dispatched" on every run exactly for the browser operations listed as not
  retryable; every other operation can time out for its caller after it was dispatched
  (`BrowserQueue.TimeoutIsCleanExactlyWhenNonRetryable`).

## Model

| member | source | states |
|---|---|---|
| Budgets.AgentBudget.Check | era/agents/budget.py:34-46 | no breach is reported exactly when time, iterations, tool calls, model calls and cost are all at or below their caps |
| Budgets.AgentBudget.CanToolCall | era/agents/budget.py:48-51 | one more tool call is allowed exactly when the count is strictly below its cap and no cap is breached |
| Budgets.AgentBudget.CanLlmCall | era/agents/budget.py:53-56 | the same for a model call |
| Budgets.AgentBudget.RecordLlmCall | era/agents/budget.py:61-64 | one more call is charged, with its tokens and its cost; negative tokens or cost count as zero |
| Budgets.AgentBudget.Restore | era/agents/budget.py:76-82 | a restored snapshot becomes the current usage, no snapshot changes nothing |
| TaskManagement.TaskManager.constructor | era/agents/task_manager.py:23-24 | the board is the one the list makes: each id at its first position, with its last task |
| TaskManagement.PlanWeight | era/agents/task_manager.py:91-102 | the attempts left on a fresh board are at most the sum of max(1, max_attempts) over the plan |
| TaskManagement.TaskManager.NextReady | era/agents/task_manager.py:41-48 | returns the first pending task in insertion order with all dependencies completed; none exactly when nothing is ready |
| TaskManagement.TaskManager.IsReady | era/agents/task_manager.py:44-47 | ready exactly when pending and every dependency exists and is completed |
| TaskManagement.TaskManager.HasPending | era/agents/task_manager.py:60-61 | true exactly when some task is pending |
| TaskManagement.TaskManager.WithStatus | era/agents/task_manager.py:35-39 | exactly the tasks of that status, each once, in insertion order |
| TaskManagement.TaskManager.BlockedPending | era/agents/task_manager.py:50-58 | exactly the pending tasks with a failed, skipped or unknown dependency, each once, in insertion order |
| TaskManagement.TaskManager.MarkRunning | era/agents/task_manager.py:77-78 | the history grows by a start and no other task changes |
| TaskManagement.TaskManager.Complete | era/agents/task_manager.py:80-81 | the history grows by a completion and no other task changes |
| TaskManagement.TaskManager.Fail | era/agents/task_manager.py:83-85 | the history grows by a failure and no other task changes |
| TaskManagement.TaskManager.Skip | era/agents/task_manager.py:87-89 | the history grows by a skip and no other task changes |
| TaskManagement.TaskManager.Retry | era/agents/task_manager.py:91-99 | succeeds exactly when `retry_allowed` would: pending again with one more attempt; at the cap only the counter moves |
| TaskManagement.TaskManager.PauseForUser | era/agents/task_manager.py:104-107 | the task waits, on its earlier confirmations and this one |
| TaskManagement.TaskManager.AddTask | era/agents/task_manager.py:30-33 | a new id is appended; a known id changes nothing |
| TaskManagement.TaskManager.Snapshot | era/agents/task_manager.py:73-74 | copies of all tasks in order; a manager built from them has the same board |
| TaskManagement.RebuildGivesBack | era/agents/task_manager.py:23-24 | building a board from the listed records of any board gives that board back |
| AgentTrace.FinishedIsFinal | era/agents/loop.py:305-316 | completed, failed and skipped tasks never change again, so a successful repair does not rescue the task it repairs |
| AgentTrace.StartsAreCounted | era/agents/task_manager.py:91-99 | conservation: the attempt counter and status account for every start, exactly |
| AgentTrace.AttemptsStayInRange | era/agents/task_manager.py:91-102 | attempts stay below the cap on every legal history |
| AgentTrace.StartsAreBounded | era/agents/task_manager.py:91-102 | no task starts more than max(1, max_attempts) times, counting the starts its record accounts for |
| AgentTrace.StartsAreBoundedOverSegments | era/agents/loop.py:114-145 | the same for the starts of a run and all its resumes together |
| AgentTrace.LegalKeepsConsistent | era/agents/task_manager.py:41-48 | completions always come after the completions of all dependencies |
| AgentTrace.StartsAreTopological | era/agents/task_manager.py:41-48 | a task starts only after each of its dependencies has completed |
| AgentTrace.SkippingStaysStuck | era/agents/loop.py:160-175 | once nothing is ready, skipping makes nothing ready again and changes nothing but pending tasks |
| AgentTrace.SkipPassesEqualOnePass | era/agents/loop.py:165-175 | the repeated skip passes end in the statuses of one pass that skips everything pending |
| AgentTrace.StuckTasksAreDoomed | era/agents/loop.py:160-175 | when nothing is ready, every pending task has a dependency walk into a dead end or a cycle |
| AgentTrace.StartedIsNotDoomed | era/agents/task_manager.py:41-48 | a task that has started has no such walk |
| AgentTrace.SkippedExactlyWhenDoomed | era/agents/loop.py:160-175 | the fixpoint for any segment, fresh or resumed: skipped exactly when doomed |
| AgentTrace.FreshRunSkips | era/agents/loop.py:160-175 | in a fresh run: skipped exactly when `depends_on` leads to a failed task, an unknown id or a cycle |
| AgentTrace.FreshRunOrder | era/agents/loop.py:153-181 | every history of a fresh plan starts tasks in dependency order and within their caps |
| AgentTrace.FreshRunFixpoint | era/agents/loop.py:160-175 | a fresh run that leaves nothing open is at the fixpoint |
| AgentTrace.WaitingDependencyDooms | era/agents/loop.py:130-145 | everything that leads to a task still waiting for its user is doomed |
| AgentTrace.DependentsOfWaitingAreSkipped | era/agents/loop.py:160-175 | a segment that ends normally has skipped every task that depends, at any distance, on one still waiting |
| AgentTrace.UnansweredResumeSkips | era/agents/loop.py:130-175 | two tasks, one waiting and one depending on it: with nothing resolved the loop can only skip the second, and then nothing is pending while the first still waits |
| AgentTrace.PauseIsOnOne | era/agents/loop.py:246-253 | a segment that began with nothing open or skipped and has paused waits for exactly the last task asked about, on exactly that confirmation |
| AgentTrace.DoomedIsClosedOff | era/agents/loop.py:160-175 | where nobody waits, what dooms a task is a failed or earlier-skipped task, an unknown id, a cycle or a task left running |
| AgentTrace.FinishedIsFixpoint | era/agents/loop.py:160-175 | a segment that found nothing skipped and left everything finished is at the fixpoint of a run that never paused |
| AgentTrace.StepWeight | era/agents/task_manager.py:91-102 | starting or skipping a task lowers the summed remaining attempts; a retry gives back fewer than its start took |
| AgentAccounts.DecisionsAreEarned | era/agents/loop.py:183-307 | success takes a call that was sent, pausing an operator who was asked for that confirmation and waits, stopping over budget a call the caps refuse |
| AgentAccounts.DispatchedAtMostOnce | era/services/execution_service.py:120-129 | calls answered without asking for a confirmation and calls approved are together at most the calls requested: an approval is the first dispatch of its call |
| AgentAccounts.DispatchedCounts | era/services/execution_service.py:120-129 | the number of dispatches is that of the calls that needed no confirmation or had it approved |
| AgentAccounts.WithActionDistributes | era/agents/loop.py:196-196 | exactly the proposed calls with an action type are kept, in order |
| AgentAccounts.SendingStops | era/agents/loop.py:216-272 | every call sent before the last was executed; sending stops early on its own only at one that was not |
| AgentAccounts.ThinkingCharges | era/agents/brain.py:166-183 | usage grows by the number of model calls made and by their nonnegative tokens and costs |
| AgentAccounts.RoomForAllCalls | era/agents/budget.py:53-56 | with room under every cap all model calls are made |
| AgentAccounts.ExecutingIsAccounted | era/agents/loop.py:218-230 | one execution spends at most its proposed calls and its model costs, sends only within the caps, and dispatches no more than it sends |
| AgentAccounts.SufficientCapsAreNotExhausted | era/agents/budget.py:34-56 | caps with room for every pass that can run are never what ends the loop |
| AgentLoops.AgentLoop.Think | era/agents/brain.py:166-183 | the usage afterwards is exactly that of making and charging each model call while the caps allow one |
| AgentLoops.AgentLoop.SendCalls | era/agents/loop.py:216-272 | calls are sent in order, each within the caps, up to the first that is not executed; how the sending ends, what is requested and what can reach a provider are fixed by the calls and the budget |
| AgentLoops.AgentLoop.ExecuteTask | era/agents/loop.py:183-305 | what is charged, requested and dispatched follows from the pass and the budget, and the decision from the pass, the way sending ended, the attempts left and the action (its meaning is that of `DecisionOutcome`) |
| LoopHistories.DecisionOutcome | era/agents/loop.py:183-307 | completed exactly when calls were sent and observed and the verdict is ok; pending again exactly when attempts are left and the brain failed or a retryable action was observed and not verified; waiting exactly when an operator waits; running exactly when the budget ran out; failed otherwise |
| AgentLoops.AgentLoop.Settle | era/agents/loop.py:286-307 | each decision becomes the one task transition it stands for |
| AgentLoops.AgentLoop.DeadTasks | era/agents/loop.py:169-170 | exactly the blocked tasks, or everything pending if none is blocked, in insertion order |
| AgentLoops.AgentLoop.SkipPass | era/agents/loop.py:169-175 | one deadlock pass skips exactly the blocked tasks, or everything pending if none is blocked |
| AgentLoops.AgentLoop.Repair | era/agents/planner.py:152-175 | a failed write yields a new write and a read that depends on it, three attempts each; anything else yields nothing |
| AgentLoops.AgentLoop.HasRequiredUnmet | era/agents/loop.py:401-404 | true exactly when a required task failed or was skipped |
| AgentLoops.AgentLoop.PendingIds | era/agents/loop.py:484-490 | exactly the confirmations that waiting tasks wait on, each once |
| AgentLoops.AgentLoop.Conclude | era/agents/loop.py:405-413 | the run status from the way the loop ended and the tasks, and the confirmations a waiting run waits for |
| LoopHistories.LoopRuns | era/agents/loop.py:177-316 | running a ready task to a settled end keeps the loop invariant and uses up attempts |
| LoopHistories.LoopSkips | era/agents/loop.py:161-175 | a skip pass keeps the loop invariant and uses up pending tasks |
| LoopHistories.LoopPauses | era/agents/loop.py:246-253 | pausing on a ready task leaves it the only newly open one, waiting for the confirmation asked for, and uses up attempts |
| LoopHistories.PassDone | era/agents/loop.py:177-307 | one pass over a ready task leaves it as the pass says, keeps the invariant or pauses, and uses up attempts |
| TaskOutcomes.ExplainsOneMore | era/agents/loop.py:177-307 | over any number of passes every task is settled right after its start, by a step that the pass which ran it calls for |
| TaskOutcomes.CompletedWasVerified | era/agents/loop.py:283-290 | the last start of a completed task ran a pass that sent calls and whose verdict was ok |
| AgentLoops.AgentLoop.RunTask | era/agents/loop.py:177-307 | one pass over a ready task: exactly what it requests, dispatches and charges, the status it ends with in terms of the pass, the invariant and the accounts; asking leaves this task the only newly open one |
| AgentLoops.AgentLoop.RunAndRepair | era/agents/loop.py:305-316 | a replan happens exactly when one is allowed and a write failed its verification for good; then both repair tasks are on the board, new ones unless their ids were taken; leaving over budget takes a refused call, pausing an operator who waits; attempts go down, by repairs up by at most six |
| AgentLoops.AgentLoop.OnePass | era/agents/loop.py:153-178 | one pass leaves the loop for a cap that refused, an operator who waits or nothing pending, or comes back with a replan or attempts used up; a pass that runs nothing logs nothing |
| AgentLoops.AgentLoop.Drive | era/agents/loop.py:148-318 | the loop ends for every plan and script without help from the budget; it ends normally whenever nobody waits and the caps cover the attempts left plus repairs, over budget only for a refusing cap, paused only for an operator who waits, and then with one newly open task; on a normal end nothing is pending or newly open; both logs hold exactly what the passes that ran tasks sent, one iteration each; status and pending confirmations are those the tasks call for; every task was settled as the pass that ran it calls for |
| AgentLoops.AgentLoop.Run | era/agents/loop.py:100-112 | a fresh run of exactly the given plan: dependency order, start caps, and on a normal end the fixpoint, completed exactly when every required task completed; it waits exactly when it paused, and then one task waits, on one confirmation, which the record lists; the end is normal whenever nobody waits and the caps cover the plan's attempts plus repairs; every completed task was verified in its last run |
| AgentLoops.AgentLoop.SettleWaiting | era/agents/loop.py:132-144 | one waiting task: completed if some resolution says executed, failed if it has only others, untouched without any |
| LoopHistories.SettledExactly | era/agents/loop.py:132-144 | completed exactly when some confirmation was executed, failed when some were resolved but none executed, waiting when none was resolved |
| AgentLoops.AgentLoop.ResolveWaiting | era/agents/loop.py:130-144 | each waiting task with a resolved confirmation is completed or failed accordingly, the others keep waiting, and no other task changes |
| LoopHistories.ResolutionStands | era/agents/loop.py:130-145 | a resolution is final for the rest of the segment |
| LoopHistories.AnsweredLeavesNoneWaiting | era/agents/loop.py:131-144 | nobody is left waiting exactly when every waiting task has a resolved confirmation |
| LoopHistories.NormalEndOfAnswered | era/agents/loop.py:145-175 | at a normal end somebody waits exactly when somebody was left waiting; if nobody does, exactly the closed-off tasks were skipped |
| AgentLoops.AgentLoop.Resume | era/agents/loop.py:114-145 | a segment resumed on a record: usage continues, resolutions stand, on a normal end exactly the doomed tasks are skipped, and nobody waits exactly if every wait was answered; a run that waited for one confirmation, now resolved, pauses the same way again, or is over budget, or ends at the fixpoint of a run that never paused; the end is normal on the same condition as for a fresh run; tasks completed after the resolutions were verified in their last run |
| AgentAccounts.CapsHoldOverAllSegments | era/agents/budget.py:34-51 | over a run and its resumes: what reaches a provider, approved calls among it, is at most what is requested, which equals tool calls and stays within the cap; nothing is sent past the iteration cap, iterations end at most one past it |
| AgentServices.ResolvesThePause | era/services/agent_service.py:106-116 | whenever a stored run is continued, the one confirmation it waits for has been resolved |
| AgentServices.AgentService.StartRun | era/services/agent_service.py:84-97 | the record of a new run keeps the invariant: it is over budget because a cap refused, or waits for one task and one confirmation, or has ended at the fixpoint |
| AgentServices.AgentService.ContinueRun | era/services/agent_service.py:99-123 | continuing keeps the invariant, however often; the answered task is completed if its confirmation was executed and failed otherwise; a run that is not waiting, or of which nothing is resolved, is left as it is |
| Calendar.OrdinalOrders | era/core/cron.py:129-159 | the day number orders dates and identifies them |
| Calendar.NextDayOrdinal | era/core/cron.py:148-148 | adding a day is one step of the day number, across months and leap years |
| Calendar.NextMinuteCounts | era/core/cron.py:151-157 | adding an hour or a minute is 60 steps or one step of the minute count |
| Calendar.CronWeekdayIsOrdinal | era/core/cron.py:141-141 | the Sunday-is-zero weekday is the day number modulo seven |
| Calendar.OrdinalCountsDays | era/core/cron.py:141-148 | the day number of a date is the number of days to it from 1 January of year 1, which is day 1 |
| Calendar.WeekdaysFollow | era/core/cron.py:141-141 | that first day is a Monday, and each day has the weekday after that of the day before |
| Calendar.CalendarRepeats | era/core/cron.py:141-148 | 400 years have 146097 days, and dates and weekdays repeat after them |
| Calendar.KnownDays | era/core/cron.py:141-148 | 1900 and 2025 are not leap years, 2000 and 2024 are; 1 January 2000 is a Saturday, 5 January 2026 a Monday |
| Calendar.EveryDateMeetsEveryWeekday | era/core/cron.py:139-149 | every day of the year falls on every weekday in a leap year within 424 years |
| Cron.ParsePart | era/core/cron.py:55-91 | a part adds exactly every step-th value of its range |
| Cron.ParseField | era/core/cron.py:42-93 | accepted exactly when well formed and in bounds; the set is exactly what the parts denote, and not empty |
| Cron.ParseSchedule | era/core/cron.py:99-113 | accepted exactly when all five fields are; 7 and 0 both mean Sunday |
| Cron.NextAfter | era/core/cron.py:115-161 | the result is the least matching minute after the start; no result means no match up to year 9999; "not found" never happens |
| Cron.CapIsNotReached | era/core/cron.py:125-129 | within the calendar the iteration cap is never reached |
| Cron.FeasibleSoon | era/core/cron.py:125-161 | a schedule that admits a real date has a run within 425 years |
| Cron.EitherRuleAgreesExactlyWhen | era/core/cron.py:142-149 | the rule of the comment and the code's agree on every date exactly when a day field is a star or both admit every day |
| Cron.ThirteenthOrFriday | era/core/cron.py:145-149 | a schedule and a date on which they differ |
| Cron.MatchesRemainExactlyWhenFeasible | era/core/cron.py:125-161 | while 425 years of calendar remain, a run is left exactly when the month and day sets admit a real date |
| Cron.InfeasibleNeverMatches | era/core/cron.py:131-149 | a schedule that admits no date matches no minute |
| Cron.ScanFindsNothing | era/core/cron.py:115-161 | where nothing matches, the minute-by-minute scan reports nothing |
| Cron.SearchEqualsScan | era/core/cron.py:115-159 | the skipping search and the minute-by-minute scan agree |
| Cron.NextIsUnique | era/core/cron.py:115-116 | there is only one next run |
| Cron.NextMonday | era/core/cron.py:115-159 | "30 9 * * 1" asked as 1 January 2026 begins: the least match is Monday the 5th at 09:30 |
| Cron.IterationListsEveryRun | era/core/cron.py:115-159 | iterating the search lists every matching minute exactly once, in increasing order |
| FixedWindow.StepMeaning | era/api/rate_limit.py:60-77 | admitted exactly when every bucket has room; admission adds one to each, refusal to none, other buckets are untouched |
| FixedWindow.ExhaustedAddressOpensNoKey | era/api/rate_limit.py:66-74 | a used-up address opens and changes no key window |
| FixedWindow.FiguresAreLeast | era/api/rate_limit.py:76-89 | limit, remaining and retry-after of an admission are each the least over its buckets |
| FixedWindow.RetryAfterIsExact | era/api/rate_limit.py:69-74 | a refusing bucket is used up until less than a second before retry-after, and empty from then on |
| FixedWindow.CleanupIsUnobservable | era/api/rate_limit.py:87-97 | dropping stale windows at any moments changes no decision in any history |
| FixedWindow.AdmissionsAreBounded | era/api/rate_limit.py:51-89 | in any interval of one window's length at most 2*key_limit-1 admissions per key and 2*ip_limit per address |
| FixedWindow.BetweenCounts | era/api/rate_limit.py:51-89 | the count in those bounds is that of the admissions inside the half-open interval, each once |
| FixedWindow.KeyBoundIsReached | era/api/rate_limit.py:60-77 | the key bound is attained for every configuration, with a new address for each request |
| FixedWindow.AddressBoundIsReached | era/api/rate_limit.py:60-77 | the address bound is attained for every configuration, when a refused request has opened the window |
| FixedWindow.FixedWindowRateLimiter.Build | era/api/rate_limit.py:31-49 | a limiter is built exactly for limits of at least one and a positive window |
| FixedWindow.FixedWindowRateLimiter.Admit | era/api/rate_limit.py:76-86 | counting in every bucket and reporting the least figures |
| FixedWindow.FixedWindowRateLimiter.Check | era/api/rate_limit.py:51-89 | every decision ever given is that of the history semantics; a sweep happens exactly on admitted checks divisible by 256 |
| RollingLimiter.AllowedExactlyWhenRemaining | era/providers/_rate_limit.py:35-66 | in every state, k slots are granted exactly when 1 <= k <= remaining |
| RollingLimiter.PruneKeepsTail | era/providers/_rate_limit.py:48-51 | pruning from the front leaves exactly the grants inside the window |
| RollingLimiter.AnswersCountTheHistory | era/providers/_rate_limit.py:44-66 | every answer is what counting over the full history of grants gives |
| RollingLimiter.GrantsAreBounded | era/providers/_rate_limit.py:44-54 | no actor gets more than `limit` slots in any (t - window, t] |
| RollingLimiter.WithinCounts | era/providers/_rate_limit.py:44-54 | the count in that bound is that of the slots granted after t - window and no later than t, each once |
| RollingLimiter.BucketsAreOwn | era/providers/_rate_limit.py:45-45 | named actors have a bucket each, calls that name nobody share one |
| RollingLimiter.ActorRateLimiter.constructor | era/providers/_rate_limit.py:24-28 | limits below one slot or a millisecond are raised to those |
| RollingLimiter.ActorRateLimiter.Expire | era/providers/_rate_limit.py:48-51 | the popping loop computes the pruned queue |
| RollingLimiter.ActorRateLimiter.AllowMany | era/providers/_rate_limit.py:35-54 | the answer and the queues are those of the history semantics |
| RollingLimiter.ActorRateLimiter.AllowOne | era/providers/_rate_limit.py:30-33 | the same for a single slot |
| RollingLimiter.ActorRateLimiter.FreeSlots | era/providers/_rate_limit.py:56-66 | the same for the remaining slots |
| CircuitBreakers.DocumentedFailuresNeverOpen | era/core/circuit_breaker.py:24-30 | the failures documented never to count can open no circuit exactly when the trip codes contain none of them |
| CircuitBreakers.AuthFailureOpens | era/core/circuit_breaker.py:88-94 | a configuration under which one authorization failure opens the circuit |
| CircuitBreakers.IneligibleFailuresLeaveNoTrace | era/core/circuit_breaker.py:88-94 | deleting every ineligible failure from a history leaves the same state |
| CircuitBreakers.ClosedCountIsTheStreak | era/core/circuit_breaker.py:193-229 | the closed count is the number of eligible failures since the last success or start |
| CircuitBreakers.OpensExactlyWhen | era/core/circuit_breaker.py:218-229 | a closed circuit opens exactly on the failure that completes the threshold, a half-open one on any eligible failure |
| CircuitBreakers.RecoversExactlyWhen | era/core/circuit_breaker.py:184-203 | a circuit closes exactly on a success while half-open, and is half-open exactly from a request after the cooldown |
| CircuitBreakers.OpeningIsRecorded | era/core/circuit_breaker.py:218-229 | an opening stores its time and the threshold, or one after a failed probe |
| CircuitBreakers.NothingAdmittedWhileCooling | era/core/circuit_breaker.py:184-190 | from an opening until the cooldown has passed every request is blocked |
| CircuitBreakers.BlockedExactlyWhen | era/core/circuit_breaker.py:172-190 | over every ordered history a request is blocked exactly when the circuit was opened less than a cooldown before, and admitted otherwise |
| CircuitBreakers.OpeningsAreApart | era/core/circuit_breaker.py:172-229 | two openings are at least one cooldown apart |
| CircuitBreakers.EveryProbeIsAdmitted | era/core/circuit_breaker.py:182-189 | after the cooldown every request is admitted until an outcome is reported |
| CircuitBreakers.CrashesExactlyWhen | era/core/circuit_breaker.py:178-190 | over every history a request fails the assertion exactly when the breaker began open without an opening time |
| CircuitBreakers.RestartsAreInvisible | era/core/circuit_breaker.py:137-229 | breakers rebuilt at any points and taking turns on one store reply as one that is never restarted, failing assertions included |
| CircuitBreakers.SavedSnapshotsAreSound | era/core/circuit_breaker.py:172-229 | however loads and saves interleave, open implies an opening time and closed implies a count below the threshold |
| CircuitBreakers.CircuitBreaker.constructor | era/core/circuit_breaker.py:117-134 | a new breaker starts from the stored snapshot, whatever it is, or closed |
| CircuitBreakers.CircuitBreaker.AllowRequest | era/core/circuit_breaker.py:172-190 | admitted, blocked or crashed as the machine says; memory and store follow it |
| CircuitBreakers.CircuitBreaker.RecordSuccess | era/core/circuit_breaker.py:193-203 | memory and store follow the machine |
| CircuitBreakers.CircuitBreaker.RecordFailure | era/core/circuit_breaker.py:205-229 | memory and store follow the machine; an ineligible code does not even refresh |
| Retries.OnlyTransientCodesAreRetried | era/core/retry.py:115-127 | whatever is configured, only UNAVAILABLE and PROVIDER_ERROR can be retryable |
| Retries.BackoffIsMonotone | era/core/retry.py:129-133 | backoffs are non-negative, never shrink and never exceed the cap |
| Retries.BackoffMultiplies | era/core/retry.py:129-133 | the first backoff is the base, each further one the factor times the one before, all up to the cap |
| Retries.NapsAreBounded | era/core/retry.py:190-205 | sleeps are nondecreasing and within the cap |
| Retries.PatientSkips | era/core/retry.py:162-189 | the loop's result is the first decisive outcome or the last allowed one |
| Retries.WithRetry | era/core/retry.py:162-205 | at most max_attempts calls; ends with the first success, first non-retryable or last error unchanged, or gives up for the deadline alone; no call at or past the deadline; sleeps are the backoffs and fit in the time left |
| AuditChain.AppendKeepsWellFormed | era/repositories/audit.py:14-49 | a row built on the last row extends a valid log to a valid log, numbered without gaps |
| AuditChain.ValidRowsAreSigned | era/repositories/audit.py:82-92 | with a key every row of a valid log carries an accepted signature of its hash; without one no row is signed |
| AuditChain.PrefixesAreValid | era/repositories/audit.py:62-72 | every prefix of a valid log is valid |
| AuditChain.FirstFaultEndsLongestValidPrefix | era/repositories/audit.py:63-72 | the rows before the first fault form the longest valid prefix |
| AuditChain.FirstFaultIsUnique | era/repositories/audit.py:63-72 | there is only one first fault |
| AuditChain.VerifyRows | era/repositories/audit.py:52-79 | valid exactly when every row is; otherwise the report names the first faulty row's seq and its first fault |
| AuditChain.EqualHeadsMeanEqualLogs | era/repositories/audit.py:62-72 | two valid logs with one head agree in every hashed field of every row, or exhibit a collision or a row that hashes to the genesis value |
| AuditChain.EditIsReported | era/repositories/audit.py:63-72 | editing a row's hashed fields is reported at that row unless hash and link stay the same |
| AuditChain.RemovalIsReported | era/repositories/audit.py:64-65 | removing a row is reported as a broken link at the next row, unless it was the last or its hash is also that of the row before |
| AuditChain.AnyNumberVerifies | era/repositories/audit.py:63-72 | a log of one row verifies whatever its number |
| AuditChain.GapsVerify | era/repositories/audit.py:63-72 | for every gap there is a log in order that verifies in spite of it |
| AuditChain.NumberedExactlyWhenEndsFit | era/repositories/sqlite.py:84-88 | rows in order of their numbers are numbered 1 to n exactly when they start at 1 and end at n |
| AuditChain.WellFormedExactlyWhen | era/repositories/audit.py:52-79 | a verified log is numbered 1 to n exactly when it is in order and its ends fit |
| AuditChain.AuditTable.Append | era/repositories/postgres.py:49-63 | one row is added and a well-formed log stays well formed |
| AuditChain.StepKeepsSerialised | era/repositories/postgres.py:49-63 | every step of every session keeps the log well formed and only extends what is committed |
| AuditChain.CommittedLogIsWellFormed | era/repositories/postgres.py:49-63 | over all interleavings the committed log verifies, is numbered 1 to n and has no fork |
| AuditChain.CommittedOnlyGrows | era/repositories/postgres.py:49-63 | what has been committed stays a prefix of every later log |
| AuditChain.CommitAddsTheRow | era/repositories/postgres.py:49-63 | lock, read, add and commit, with steps of other sessions in between, leave the committed log one row longer, with that entry and time, numbered and linked; a rollback leaves it as it was |
| ElementRefs.StoredGenerationsNeverLead | era/providers/browser.py:238-314 | over every sequence of operations stored generations never exceed their tab's current one |
| ElementRefs.DeadStaysDead | era/providers/browser.py:238-314 | a superseded, dropped or expired reference never becomes live again |
| ElementRefs.EndsOfLife | era/providers/browser.py:238-314 | a live reference dies exactly on a snapshot or reset of its tab, the end of its session, or its expiry |
| ElementRefs.SupersededIsStale | era/providers/browser.py:238-256 | a newer snapshot keeps an unexpired reference and makes it stale, not unknown |
| ElementRefs.OnlyLivePass | era/providers/browser.py:276-299 | the scope check passes exactly for a live reference used on its own tab, address and origin |
| ElementRefs.ElementReferenceRegistry.Snapshot | era/providers/browser.py:238-256 | the generation goes up by one and only expired references of the tab are dropped |
| ElementRefs.ElementReferenceRegistry.Enrol | era/providers/browser.py:258-270 | one reference is stored with the given scope |
| ElementRefs.ElementReferenceRegistry.Get | era/providers/browser.py:272-274 | a record is found exactly when the session holds the reference |
| ElementRefs.ElementReferenceRegistry.ForgetTab | era/providers/browser.py:301-309 | the tab's references are dropped and its generation goes up |
| ElementRefs.ElementReferenceRegistry.ForgetSession | era/providers/browser.py:311-314 | references and generations of the session are dropped |
| PageInspection.Collect | era/providers/browser.py:473-484 | the recursive walk appends every node outside shadow placeholders, in document order |
| PageInspection.WalkCollectsExactly | era/providers/browser.py:473-484 | a node is collected with a path exactly when the path leads to it and passes no shadow placeholder |
| PageInspection.CollectedInOrder | era/providers/browser.py:473-484 | nodes are collected in document order: a node, what is below it, its next sibling |
| PageInspection.PathsAreDistinct | era/providers/browser.py:473-484 | no two collected nodes have the same path |
| PageInspection.WalkPathsAreDistinct | era/providers/browser.py:459-471 | a page's descriptors are told apart by their paths |
| PageInspection.WalkDescribesExactly | era/providers/browser.py:459-471 | the descriptors are those of the nodes outside shadow placeholders that can be described |
| PageInspection.FrameDocuments | era/providers/browser.py:1021-1039 | the main frame, then one frame per iframe with a source, numbered in order |
| PageInspection.FramesAreIframes | era/providers/browser.py:1021-1039 | one frame for each iframe with a source; the k-th has its joined address and holds the page there |
| PageInspection.TabFrames | era/providers/browser.py:1021-1039 | the first frame is the tab's own page, the others follow in document order |
| PageInspection.FrameIdsAreDistinct | era/providers/browser.py:1021-1039 | no two frames of a tab have the same id |
| PageInspection.ResolvesToItsElement | era/providers/browser.py:1051-1091 | a reference that still stands for an element resolves to exactly it if its fingerprint is unique in the frame, and to a conflict otherwise |
| PageInspection.ResolvedIsTheOnlyMatch | era/providers/browser.py:1051-1091 | whatever has happened since, a reference that resolves gives the only element with its fingerprint, at its recorded path and in its scope |
| PageInspection.RefusalCodes | era/providers/browser.py:1051-1091 | NOT_FOUND exactly when the reference is not stored, or used in its scope matches nothing; every other refusal is a CONFLICT |
| PageInspection.OtherStepsKeepStanding | era/providers/browser.py:238-314 | operations on other tabs and sessions do not take a reference from its element |
| PageInspection.StandsOverRun | era/providers/browser.py:238-314 | nor does any sequence of them, until the reference expires |
| PageInspection.SimulatedBrowserTransport.InspectFrame | era/providers/browser.py:862-875 | the elements of one frame, up to the limit, and no other change: each step of the registry issues one reference on this tab |
| PageInspection.PlacesAreAll | era/providers/browser.py:862-875 | every descriptor of every frame is visited once, frame by frame, in the order of the walk |
| PageInspection.SimulatedBrowserTransport.Inspect | era/providers/browser.py:852-889 | the first elements of all frames in order, each with a stored reference; truncated exactly when the limit was met; all that happens to the registry is a run of steps on this tab, so that other tabs and sessions keep their references and stored generations never lead |
| PageInspection.InspectedElementResolves | era/providers/browser.py:1051-1091 | until it expires, each returned reference resolves to its element when that is unique, and to CONFLICT otherwise |
| PageInspection.InspectedElementStillResolves | era/providers/browser.py:1051-1091 | the same after any sequence of operations elsewhere, while the page stays |
| PageInspection.InspectionIssues | era/providers/browser.py:258-270 | registering a reference during an inspection is one step of a run of the registry |
| PageInspection.OtherTabsKeepTheirReferences | era/providers/browser.py:852-875 | the references of one tab resolve after the inspection of another as they did before, until they expire |
| PageInspection.SimulatedBrowserTransport.Navigate | era/providers/browser.py:723-741 | an unknown page changes nothing; a known one is loaded, the tab's references are invalidated, other tabs and sessions stay as they are |
| PageInspection.SimulatedBrowserTransport.CloseContext | era/providers/browser.py:967-969 | the session and its references are gone |
| BrowserQueue.Reachable | era/providers/browser.py:1535-1607 | the invariant of every reachable state of callers, queue and worker |
| BrowserQueue.DoneIsFinal | era/providers/browser.py:1551-1567 | a call's outcome never changes |
| BrowserQueue.CodesTellTheTruth | era/providers/browser.py:1535-1607 | for a mutating operation TIMEOUT means never dispatched, now and later; success means dispatched exactly once; a rejected call was never taken |
| BrowserQueue.QueuedExactlyWhen | era/providers/browser.py:1546-1551 | a command has been in the queue exactly when its caller is past submitting and was not rejected |
| BrowserQueue.UnansweredCodes | era/providers/browser.py:1546-1564 | without an answer from the worker: UNAVAILABLE exactly when the command never entered the queue, and then it is never taken; otherwise SIDE_EFFECT_UNKNOWN for the listed operations and TIMEOUT for the rest |
| BrowserQueue.CodesHaveCauses | era/providers/browser.py:1569-1607 | apart from TIMEOUT and SIDE_EFFECT_UNKNOWN the worker reports only codes that a failure in the history caused |
| BrowserQueue.PromptCallSucceeds | era/providers/browser.py:1569-1607 | every operation served at once succeeds, dispatched once, its session left open |
| BrowserQueue.EveryTakenCommandIsAnsweredOnce | era/providers/browser.py:1569-1607 | a command is taken and dispatched at most once, and answered exactly once when taken |
| BrowserQueue.AnsweringNeverBlocks | era/providers/browser.py:1579-1602 | the response slot is free whenever the worker answers |
| BrowserQueue.CallersArePatient | era/providers/browser.py:1538-1564 | a caller gives up 0.05 seconds or more after its deadline, and waits no longer than that grace asks |
| BrowserQueue.MissedIsForGood | era/providers/browser.py:1556-1584 | a command not let through by its deadline, before being cancelled, or before its caller gave up is never dispatched |
| BrowserQueue.DoubtClosesTheSession | era/providers/browser.py:2208-2221 | a mutating operation never fails with a clean TIMEOUT once started, and a doubtful outcome closes its session first |
| BrowserQueue.ReadTimeoutSaysNothing | era/providers/browser.py:1556-1564 | every operation outside the list can time out for its caller after it was dispatched |
| BrowserQueue.GivingUpAfterDispatch | era/providers/browser.py:1556-1564 | every operation has a run in which its caller gives up after the dispatch; it then sees SIDE_EFFECT_UNKNOWN for the listed operations and TIMEOUT for the rest |
| BrowserQueue.TimeoutIsCleanExactlyWhenNonRetryable | era/providers/browser.py:1558-1562 | TIMEOUT means never dispatched on every run exactly for the operations in the list |

## Left out

- Events, memory, observations and error texts of the agent loop (`_emit`, `ShortTermMemory`): they do not influence task states.
- Planning, plan shapes, model prompts and goal parsing: a plan is an arbitrary list of tasks. Only the repair of a failed write is modelled.
- The rounding of cost to six digits in a run record: a resume restores the usage itself.
- `_gate_reject`, verifier and operator: their answers are part of the script.
- What the execution service does with a call: a request it answers without asking for a confirmation, and an approval, each count as one dispatch, also where policy denies it and nothing reaches a provider.
- Cron text: a field arrives as parsed parts (star, range or number, with a step). Month and weekday names, aliases and number syntax are not modelled; nor are time zones and dropped seconds before the search.
- `compute_next_run`: plain branching over the search.
- Floating point: reals are exact, so drift and equality of measured times are not captured.
- Fixed-window middleware (headers, 429 replies, fingerprinting a key): plumbing. A check is one atomic step, as its lock makes it.
- Aliasing of window objects: a window is a value in a map, updated in place of the object.
- Several threads inside one breaker object: interleaving is modelled between breakers that share a store. `CircuitBreakerRegistry` is only a cache of breakers.
- Audit storage other than the PostgreSQL append, canonical JSON and the digest itself: hashing and signing are function parameters; unforgeability of signatures is not assumed and not claimed.
- A transaction that reads the last row from a snapshot older than its lock: each read sees what is committed when it is made.
- HTML tokenising, names, roles and visibility: a parser and a description function are parameters. The shadow flag of a node is not carried.
- Clicks, form submission, downloads and uploads of the simulator, and the JavaScript walker of the real browser.
- The browser queue is modelled on values, as atomic steps that interleave: update in place and the worker's own control flow are not captured, only the order of its effects.
- Idle-time bookkeeping of browser contexts: any session may be reaped at any time.
- Of the agent service only starting and continuing a run: not looking up resolutions in the audit log, actors, streaming, or stored rows that can no longer be read.
- Other services, workflows, permissions, confirmations, SQLite repositories and other providers are not part of this model.
