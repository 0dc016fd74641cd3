# Verified model of the online judge

This project models the core of an online judge and proves what it promises: a submission that
was accepted is never lost and never stored twice, whatever crashes, restarts and interleavings
happen and however often it is judged; the materialised statistics always equal what the submissions
say; the scheduler answers every accepted task; the sandbox filter denies exactly the listed system
calls; and a verdict means what it says.

Check everything with `dafny verify dfyconfig.toml`.

| file | what it models |
|---|---|
| `Basics.dfy` | optional values, clock units, letter case |
| `JudgeStatus.dfy` | verdicts and their severity |
| `TextOrder.dfy` | the byte order of timestamps |
| `Tables.dfy` | the tables, and the state that each write transaction commits |
| `Statistics.dfy` | agreement of `user_problem_status` with `submissions` |
| `Services.dfy` | the write transactions statement by statement, each of which may fail |
| `Lifecycle.dfy` | every run of the server over the tables, with crashes |
| `Effects.dfy` | what each step does to the tables, row by row, and what an accepted task can count on |
| `Recovery.dfy` | the recovery of in-flight rows at startup |
| `JudgeManager.dfy` | the bounded queue, and every interleaving of its clients and workers |
| `JudgeEngine.dfy` | one judge run under its global deadline |
| `CompileGate.dfy` | the limit on concurrent compilations, over every interleaving |
| `Classification.dfy` | the verdict of a test case, and the executor's watch over a process |
| `Seccomp.dfy` | the filter generator and the machine its programs run on |
| `Comparator.dfy` | output normalisation |
| `Leaderboard.dfy` | the ranking and its pages |
| `RateLimiter.dfy` | the sliding-window limiter |
| `ProblemFilter.dfy` | tag storage, tag filter and title filter |

How it fits together. `Tables` defines committed states as functions on a value `Db`. The methods
of `Services` run the statements of each transaction on an object whose statements may fail, and
commit exactly such a state or restore the old one. `Lifecycle` takes those states as the steps of
a transition system, in which a crash forgets everything but the tables, a claim or a registration
may be lost, and the same task may be enqueued any number of times; the theorems hold for every
finite sequence of steps. `JudgeManager` and `CompileGate` do the same for critical sections: a class with one method
per critical section, the functions it implements, and a transition system of threads over those
functions. Clocks, tokens, processes, generated ids and verdicts are parameters or arbitrary.

Where the code does less than a first reading suggests, the project proves exactly what it does:

- A filter of 255 rules is generated without an error, but the offset of its x32 test is truncated
  to zero and x32 calls are not denied. `Seccomp.ProgramMeansRulesIff` shows that the program means
  its rules if and only if there are at most 254 of them.
- The incremental status update reads an empty timestamp as "no time", the recomputed one as the
  least time. `Statistics.SettledConsistentIff` gives the exact condition under which they agree;
  it always holds, because the services replace an empty time before they store it.
- The limiter reads its clock before it takes its lock, so calls may be processed out of clock
  order. If no call is late by more than `d`, then a closed window of length `L >= 0` holds at most
  the threshold of allowed attempts in every run if and only if `L <= window - d`, for every
  configuration (`RateLimiter.WindowBoundIff`); in clock order that is the configured window.
  `RateLimiter.OutOfOrderBreaksBound` is a run of four calls. A threshold below one acts as one.
- The executor records a timeout before a memory overrun, the classifier ranks them the other way
  round; and a process whose wait status was lost is recorded as a launch failure, which
  `src/judge/classification.cpp` (lines 20-26) never blames on the program, but is classified RE.
  `Classification.ReasonAndVerdictAgreeIff` gives the exact condition for reason and verdict to
  agree. The watch never raises two causes, so of a watched process they agree exactly if it was
  cancelled or it is known how it ended (`Executor.Watch`); `Executor.LostStatusDisagrees` is a run
  in which they do not.
- The tag filter takes a query that contains commas as a run of consecutive tags
  (`ProblemFilter.TagFilterMeaning`); for a comma-free query it is membership.
- `src/judge/classification.cpp` (line 38) calls running out of the global budget a backstop and not a
  timeout of the test case, yet gives the case TLE. The overall status is SYSERR, but the entry of the
  case says TLE although its limit was clipped. `JudgeEngine.BlamedForBudgetIff` shows which jobs this
  happens to: exactly those that are built and whose last case, of those they come to, is stopped by
  what was left of the budget. `JudgeEngine.ClippedTleHappens` is such a job.
- A registration and a claim are written outside the transaction mutex on the shared connection, so
  the rollback of another transaction can take them away again. The lifecycle has a step for each
  loss, and its theorems hold with them.

## Model

| member | source | states |
|---|---|---|
| Lifecycle.ExactlyOnce | src/submit/submit.cpp:358-472 | after every run each persisted task id is exactly one of: one in-flight row with the accepted entry, one submissions row with that entry that belongs to no other task, or a row dropped with its problem; every other submission was never persisted in flight |
| Lifecycle.RowsConserved | src/submit/submit.cpp:407-436 | the ids ever persisted equal in number the open, settled and dropped ones, and the submissions the settled and direct ones: nothing is lost or stored twice |
| Lifecycle.FatesAreFinal | src/db/in_flight.cpp:137-160 | a settled task stays settled by the same submission row in every continuation of the run, and no accepted entry ever changes |
| Lifecycle.OpenRowsLeaveBySettlement | src/db/problem_admin.cpp:264-294 | an in-flight row disappears only in the settlement of its own task, or as an interrupted row of a deleted problem |
| Lifecycle.StepKeeps | src/submit/submit.cpp:257-480 | every transaction, enqueue, claim, lost claim and crash keeps the whole invariant |
| Lifecycle.RunKeeps | src/submit/recovery.cpp:22-113 | the invariant holds after every run from any valid database |
| Lifecycle.StatisticsAlwaysAgree | src/submit/submit.cpp:122-154 | in every reachable state a status row exists iff there are submissions, counts them, is accepted iff one is AC, and holds the least AC time |
| Lifecycle.WorkerFindsProblem | src/submit/submit.cpp:275-280 | foreign keys hold after every run, and a worker holding a task that was not dropped finds its problem |
| Lifecycle.CrashIsRecoverable | src/submit/recovery.cpp:22-113 | after any run and a crash, resetting the claims and then claiming, enqueueing and settling row by row leaves no unsettled in-flight row, and each ends as a submission with the accepted entry and whatever verdict the judge comes to |
| Lifecycle.RejudgeCanFinish | src/submit/rejudge.cpp:127-187 | a rejudge under way can be concluded with any verdict but SYSERR |
| Lifecycle.SettledValid | src/submit/submit.cpp:407-472 | a settlement keeps keys fresh, times present, foreign keys and statistics |
| Lifecycle.RemovedValid | src/db/problem_admin.cpp:206-294 | deleting a problem without submissions keeps the database valid |
| Lifecycle.RejudgedValid | src/submit/rejudge.cpp:127-181 | updating a record and recomputing its status row keeps the database valid |
| Lifecycle.StatesKeep | src/db/in_flight.cpp:162-248 | claims, lost claims, resets and interruptions change row states only, and keep the invariant |
| Lifecycle.RemoveKeeps | src/db/problem_admin.cpp:188-295 | the guarded deletion accounts for every interrupted row it drops |
| Lifecycle.PersistKeeps | src/submit/submit.cpp:170-223 | accepting a submission adds one open id for an existing user and problem |
| Lifecycle.LoseUserKeeps | src/db/users.cpp:90-120 | a registration lost to the rollback of another transaction keeps the invariant |
| Effects.AcceptedStaysRecoverable | src/submit/submit.cpp:170-223 | in every run after its acceptance, with crashes, restarts, lost claims and attempts to delete its problem, a task has a row to be recovered or is settled, unless it is discarded |
| Effects.AcceptedAsSubmitted | src/db/in_flight.cpp:70-108 | what is accepted is the entry handed in, with its own time if it has one, in a pending row |
| Effects.RejudgeStores | src/submit/rejudge.cpp:119-162 | a concluded rejudge stores its verdict in its record, and touches no other record |
| Effects.DiscardInterrupts | src/db/in_flight.cpp:162-181 | a discarded task keeps its row and entry, as interrupted, and is no longer to be recovered; nothing else changes |
| Effects.MissingProblemInterrupts | src/submit/submit.cpp:379-405 | a task whose problem is missing is kept as interrupted, before judging and in the settlement, and no submission is stored |
| Effects.RemovalIsExact | src/db/problem_admin.cpp:188-295 | the deletion happens iff the problem exists and nothing but test cases and interrupted rows names it; then everything that names it is gone and nothing else, otherwise nothing is |
| Effects.RegistrationEffect | src/db/users.cpp:90-120 | a registration adds one new user, and losing it restores the database |
| Effects.CreationEffect | src/db/problem_admin.cpp:46-94 | a new problem under a new key with its samples as public test cases, and nothing else |
| Effects.UpdateEffect | src/db/problem_admin.cpp:97-186 | new samples replace the public test cases of the problem; the hidden ones and those of other problems stay |
| Effects.LossEffects | src/submit/recovery.cpp:26-33 | a crash forgets what is in memory only, and a lost claim is a pending row again |
| Statistics.SettledConsistentIff | src/submit/submit.cpp:122-154 | the incremental update yields the from-scratch summary if and only if the submission's time is usable |
| Statistics.SettledConsistent | src/submit/submit.cpp:429-464 | after a settlement every status row, touched or not, summarises its submissions |
| Statistics.SettledFirstAc | src/submit/submit.cpp:128-148 | the incremental first AC time is the minimum over all AC submissions, whatever order they finish in |
| Statistics.SettledCount | src/submit/submit.cpp:126-126 | the incremental count is the number of submissions |
| Statistics.RejudgedConsistent | src/db/submissions.cpp:266-349 | update plus recompute restores the summary for any change of verdict, up or down |
| Statistics.RemovedConsistent | src/db/problem_admin.cpp:264-288 | deleting a problem without submissions deletes no status row |
| Statistics.SummaryUnique | src/db/submissions.cpp:319-348 | the submissions determine the status row, so agreement fixes the table |
| Services.Database.InsertInFlight | src/db/in_flight.cpp:70-108 | inserts one pending row under the first generated id that is free, of at most five, or changes nothing |
| Services.Database.RemoveByTaskId | src/db/in_flight.cpp:137-160 | removes the row and reports whether there was one |
| Services.Database.MarkInterrupted | src/db/in_flight.cpp:162-181 | marks the row if it exists, changes nothing else |
| Services.Database.FirstAcOf | src/db/submissions.cpp:319-345 | a scan of the table finds the least time of an AC submission, or that there is none |
| Services.Database.Recompute | src/db/submissions.cpp:266-349 | keeps an existing count, counts otherwise, and stores the least AC time |
| Services.SubmitService.PersistInFlight | src/submit/submit.cpp:170-223 | with the problem rechecked inside the transaction, exactly one pending row with the entry is committed, or nothing; without a fault it does not fail |
| Services.SubmitService.SettleInterrupted | src/submit/submit.cpp:229-255 | marks the task as interrupted or leaves the tables as they were |
| Services.SubmitService.Submit | src/submit/submit.cpp:358-479 | deletes the in-flight row, inserts the submission and updates the status row all together or not at all; a missing row or problem is reported; without a fault it does not fail |
| Services.SubmitService.RejectMissing | src/submit/submit.cpp:379-405 | a persisted task of a missing problem is kept as interrupted |
| Services.SubmitService.Rejudge | src/submit/rejudge.cpp:100-187 | SYSERR changes nothing; otherwise the verdict is stored in its record, and record and statistics change together or not at all |
| Services.SubmitService.RemoveProblem | src/db/problem_admin.cpp:188-295 | deletes the problem exactly if nothing but test cases and interrupted rows hang on it |
| Services.SubmitService.DeleteRows | src/db/problem_admin.cpp:264-288 | four deletes that together remove all that names the problem |
| Recovery.RecoveryService.Run | src/submit/recovery.cpp:22-113 | terminates for any batch size and hands over rows in id order, each once, with its own task id and entry; without fault, abort or stop it hands over all of them; rows not reached stay in the table |
| Recovery.RecoveryService.HandOver | src/submit/recovery.cpp:48-105 | after a full pass no row of the batch is pending, and everything handed over precedes what is left |
| Recovery.RecoveryService.HandOverOne | src/submit/recovery.cpp:53-100 | nothing or the row as it was read is handed over, the latter only with its row claimed, whatever others did since |
| Recovery.InFlightStore.ListPending | src/db/in_flight.cpp:183-215 | the pending rows with the least ids, ascending, up to the limit |
| Recovery.InFlightStore.Claim | src/db/in_flight.cpp:217-242 | finds the pending row of an id and claims it and no other; reports whether there was one |
| Recovery.InFlightStore.ResetStaleClaims | src/db/in_flight.cpp:244-248 | every claimed row becomes pending, all others stay |
| Recovery.ClaimKeepsProgress | src/submit/recovery.cpp:75-100 | claiming and handing over the least pending row keeps the account of what is handed over and what is left |
| Recovery.ClaimHits | src/submit/recovery.cpp:75-88 | a claim by an id read earlier hits the row it was read from, or nothing |
| Recovery.StepInterferes | src/submit/recovery.cpp:38-106 | every step of the rest of the server is among the interferences the recovery is proved against |
| Recovery.RunInterferes | src/submit/recovery.cpp:38-106 | and so is every run of such steps, of any length |
| Recovery.HandOverIsEnqueue | src/submit/recovery.cpp:90-99 | claiming and handing over a row are a claim step and an enqueue step of the lifecycle |
| JudgeManager.ComputeWorkerCount | src/judge/manager.cpp:49-61 | the number of CPUs clipped to between one and eight workers |
| JudgeManager.AdmissionMeaning | src/judge/manager.cpp:89-98 | a task is refused as stopped iff the scheduler is stopped, as full iff it is not and no slot is left, and accepted otherwise |
| JudgeManager.Manager.Submit | src/judge/manager.cpp:76-112 | enqueues exactly if neither stopped nor full |
| JudgeManager.Manager.Reserve | src/judge/manager.cpp:114-129 | takes a slot exactly if neither stopped nor full |
| JudgeManager.Manager.Commit | src/judge/manager.cpp:131-178 | a reservation is always honoured: queued, queued with its token set once stopped, or answered at once after the workers may exit |
| JudgeManager.Manager.Release | src/judge/manager.cpp:180-188 | gives a slot back |
| JudgeManager.Manager.CancelAll | src/judge/manager.cpp:195-221 | stops admission and sets exactly the tokens of every queued and every running item |
| JudgeManager.Manager.TakeNext | src/judge/manager.cpp:263-278 | a worker takes the oldest item, or exits when the queue is drained |
| Scheduler.AnsweredAtMostOnce | src/judge/manager.cpp:263-314 | under every interleaving an accepted item is answered at most once, and unanswered exactly while it is queued or with one worker |
| Scheduler.NothingLeftAfterExit | src/judge/manager.cpp:223-261 | once all workers have exited, every accepted item has exactly one answer and the queue stays empty in every continuation, late commits included |
| Scheduler.WorkersDrain | src/judge/manager.cpp:234-247 | from every reachable state the workers alone reach one in which everything accepted is answered |
| Scheduler.WorkersTerminate | src/judge/manager.cpp:263-314 | any schedule of worker steps alone is finite, bounded by the work in the system |
| Scheduler.SlotGetsFree | src/submit/recovery.cpp:53-73 | unless the scheduler is stopped or reservations fill the queue, worker steps alone lead to a state in which a waiting client is granted a slot |
| Scheduler.SlotFreeOnlyIf | src/judge/manager.cpp:114-129 | otherwise no run of worker steps does |
| Scheduler.QuietMeansAnswered | src/judge/manager.cpp:268-274 | workers all wait or exit only when nothing accepted is unanswered |
| Scheduler.StoppedMeansCancelled | src/judge/manager.cpp:162-168 | once stopped, every queued or running item has its token set, also one committed later |
| Scheduler.CancelAllStops | src/judge/manager.cpp:195-216 | in every run after a cancellation admission stays stopped, and the token of everything queued or running at the time is set and stays set |
| Scheduler.LateCommitIsAnswered | src/judge/manager.cpp:154-161 | a reservation committed after the workers may exit is answered at once, with its token set |
| Scheduler.QueueIsFifo | src/judge/manager.cpp:275-277 | in every run the items started and those still queued are together the queue of before and the arrivals, in order: none is skipped or overtaken |
| Scheduler.ShutdownCompletes | src/judge/manager.cpp:223-247 | from every reachable state, after cancelling and allowing exits, the workers reach a state in which all have exited, everything accepted is answered once, and what was pending is cancelled |
| Scheduler.CapacityAndReserve | src/http/server.cpp:494-499 | queue plus reservations never exceed the capacity, the counter is their number, and eight HTTP threads stay free of waiting requests |
| Scheduler.StepKeeps | src/judge/manager.cpp:76-314 | every critical section of every thread keeps the invariant |
| Seccomp.BuildProgram | src/judge/sandbox.cpp:336-372 | yields the laid out program for at most 255 rules and an error beyond; the program means its rules iff there are at most 254, and then gives the literal answers |
| Seccomp.ProgramMeansRulesIff | src/judge/sandbox.cpp:349-362 | for all calls: kill on a foreign architecture, deny x32 and listed numbers, allow the rest, if and only if there are at most 254 rules |
| Seccomp.ProgramRun | src/judge/sandbox.cpp:336-364 | what the program answers to any call, with the truncated jump taken as it is |
| Seccomp.RulesRun | src/judge/sandbox.cpp:352-364 | from rule k on the program denies iff the number is among the rules left |
| Seccomp.ProgramAnswers | src/judge/sandbox.cpp:343-364 | for at most 254 rules, in the literal words of the kernel: kill, refuse with EPERM, allow |
| JudgeEngine.Judge | src/judge/judge.cpp:35-342 | result and events of a run are those its job calls for: failures before, during and after compilation, the prefix of cases that ran, their verdicts, the flags, the status |
| JudgeEngine.JudgementUnique | src/judge/judge.cpp:35-342 | that specification determines result and events completely |
| JudgeEngine.AcceptedIff | src/judge/judge.cpp:218-339 | AC iff compilation succeeded and every test case was started in time and uncancelled, returned, ended cleanly and matched |
| JudgeEngine.AcceptedOnTheWorld | src/judge/judge.cpp:35-342 | the same read off the job field by field, from the input checks to the last process |
| JudgeEngine.CompileErrorOnTheWorld | src/judge/judge.cpp:172-210 | CE iff the compiler rejected the source or ran over the configured limit, in an undisturbed run |
| JudgeEngine.FlagsBeforeRuns | src/judge/judge.cpp:85-189 | when a run that starts no test case is reported as cancelled or out of budget |
| JudgeEngine.FlagsDuringRuns | src/judge/judge.cpp:220-326 | when a run that came to its test cases is, by what its last process did or what kept the next from being started |
| JudgeEngine.LanguagesKnown | src/judge/executor.cpp:9-26 | names of languages are known without regard to letter case |
| JudgeEngine.PassedMeaning | src/judge/judge.cpp:297-314 | the cases are an index-ordered prefix with their verdicts, and `passed` is the number of AC among them |
| JudgeEngine.StartedWithinBudget | src/judge/judge.cpp:127-137 | the limit of every started process is at most the configured ones and ends less than a millisecond after the start plus the budget, for any number of cases and any clock; it is not cut shorter than that, and positive (for the compiler if the configured limit is) |
| JudgeEngine.StartsOnTheClock | src/judge/judge.cpp:127-131 | the compiler and every test case may start exactly before the budget has passed since the start |
| JudgeEngine.TimeLimitIsTheProblems | src/judge/judge.cpp:309-334 | an overall TLE means some case exceeded the problem's own limit, and no reported TLE had a clipped one |
| JudgeEngine.ClippedTleIff | src/judge/classification.cpp:38-45 | in the result: some reported case says TLE with a clipped limit iff the last reported case carries the budget flag; the overall status then is SYSERR |
| JudgeEngine.BlamedForBudgetIff | src/judge/judge.cpp:225-236 | on the job: a reported case says TLE with a clipped limit iff it was stopped by what was left of the budget, and there is one iff the job is built and the run ends at such a case |
| JudgeEngine.ClippedTleHappens | src/judge/judge.cpp:309-325 | one case of a second under a budget of half a second: TLE in its entry, SYSERR overall |
| JudgeEngine.StoppedRunsAreInternal | src/judge/judge.cpp:328-334 | cancelled and out of budget exclude each other and both give SYSERR |
| JudgeEngine.CancelledStartsNothing | src/judge/judge.cpp:85-89 | a run cancelled before it begins starts no process, takes no permit and reports SYSERR |
| JudgeEngine.StartedOnce | src/judge/judge.cpp:220-252 | the compiler is started at most once, then the first cases, each once and in order: exactly the reported ones, unless the executor threw out of the last |
| JudgeEngine.PermitReleasedOnce | src/judge/judge.cpp:116-159 | on every way out, also by an exception of the executor, a permit that was taken is given back exactly once, after the compiler and before the first case |
| JudgeEngine.ReleaseGuard | src/judge/compile_gate.h:51-67 | releases exactly if gated and still held |
| JudgeEngine.RunLoop | src/judge/judge.cpp:220-326 | the loop runs exactly the cases up to the first abort, cancellation, exhaustion or exception |
| JudgeEngine.RunCases | src/submit/submit.cpp:313-329 | the cases with their flags and summary, or an internal error without any case if the executor threw |
| JudgeEngine.CompileAndRun | src/judge/judge.cpp:127-217 | every outcome of the compiler maps to its status; CE only if the source was rejected or exceeded the compile limit itself |
| JudgeEngine.Summarize | src/judge/judge.cpp:16-30 | the worst status by severity, SYSERR for no cases |
| JudgeEngine.SummaryIgnoresOrder | src/judge/judge.cpp:16-30 | permuting the cases does not change the summary |
| JudgeEngine.SummaryByPresence | src/judge/status.h:45-60 | which status the presence of each case status gives, from SYSERR over TLE, MLE, RE and WA to AC |
| JudgeEngine.RemainingMsIsTight | src/judge/deadline.cpp:9-21 | positive exactly before the deadline, and rounded up by less than a millisecond |
| Classification.VerdictMeaning | src/judge/classification.cpp:9-90 | each status on the observations; AC iff clean and matching; the run is aborted iff cancelled, not launched or out of budget; TLE without a clipped limit is the problem's |
| Classification.TerminationMeaning | src/judge/local_executor.cpp:1135-1151 | each recorded reason on the observations |
| Classification.ReasonAndVerdictAgreeIff | src/judge/local_executor.cpp:1135-1151 | recorded reason and verdict agree iff the process was not launched or was cancelled, or it was not stopped for both time and memory and it is known how it ended |
| Executor.AppendBounded | src/judge/local_executor.cpp:168-180 | appends what fits, and flags what does not |
| Executor.CaptureGrows | src/judge/local_executor.cpp:168-180 | appending a chunk of any size turns the capture of a stream into the capture of the longer stream |
| Executor.ReadChunks | src/judge/local_executor.cpp:1028-1054 | for any chunking the buffer is the first `limit` bytes, truncated iff there was more |
| Executor.Inspect | src/judge/local_executor.cpp:931-964 | the checks of one turn raise at most one flag and never after another |
| Executor.Observe | src/judge/local_executor.cpp:912-1107 | the flags name the first cause of the turns checked, the captures follow the turns read, and the loop ends early only once the process is reaped |
| Executor.Watch | src/judge/local_executor.cpp:912-1151 | at most one cause is raised and it is the first one seen; the recorded reason calls for the verdict given iff the process was cancelled or it is known how it ended; the first wait status is reported; both captures are exact; reading ends only when both streams are closed or 200 ms after the process was reaped |
| Executor.LostStatusDisagrees | src/judge/local_executor.cpp:921-924 | a process whose wait status is lost is recorded as a launch failure and classified RE |
| CompileGate.Gate.Attempt | src/judge/compile_gate.cpp:12-29 | one turn of the wait: enters iff a permit is free, gives up iff cancelled or out of time |
| CompileGate.PermitsAreBounded | src/judge/compile_gate.h:43-72 | in every reachable state of any number of runs the holders are as many as the count and at most the limit, and a finished run gave back exactly what it took |
| CompileGate.WaitingEnds | src/judge/compile_gate.cpp:15-27 | a run is admitted iff a permit is free, turned away iff none is and it is cancelled or out of time |
| CompileGate.ReleaseIsExact | src/judge/compile_gate.cpp:31-37 | every release finds a permit to give back: the count drops by one exactly if the run held one, the floor at zero never decides, and a second release changes nothing |
| CompileGate.StepKeeps | src/judge/compile_gate.cpp:12-37 | every step of every run keeps count and balance |
| Comparator.SameNormalIffInterchangeable | src/judge/comparator.cpp:18-52 | two outputs normalise alike iff edits of whitespace before a newline or the end and of newlines at the end lead from one to the other |
| Comparator.NormalIdempotent | src/judge/comparator.cpp:18-48 | normalising twice is normalising once |
| Comparator.CrlfMatches | src/judge/comparator.cpp:10-14 | a text with CRLF line ends matches the text with LF ones |
| Comparator.NormalizeOutput | src/judge/comparator.cpp:18-48 | the line-splitting algorithm computes the normal form |
| Comparator.OutputsMatch | src/judge/comparator.cpp:50-52 | true exactly for interchangeable outputs |
| Leaderboard.StandingsAgree | src/db/leaderboard.cpp:22-30 | the aggregate over status rows equals the one over submissions on visible problems: solved problems, submissions, earliest AC, and who is listed |
| Leaderboard.BoardIsOfSubmissions | src/db/leaderboard.cpp:76-85 | in every reachable state the ranking is the one that the submissions define |
| Leaderboard.SumCountsSubmissions | src/db/leaderboard.cpp:25-25 | the sum of the counts of any rows is the number of submissions behind them |
| Leaderboard.TimesAgree | src/db/leaderboard.cpp:26-27 | the minimum of the per-problem minima is the minimum over all AC submissions |
| TextOrder.LessMeaning | src/submit/submit.cpp:133-136 | times are compared as texts: the smaller byte at the first difference comes first, and a prefix before its extensions |
| Leaderboard.AheadTotal | src/db/leaderboard.cpp:83-85 | any two different standings are ordered |
| Leaderboard.AheadTransitive | src/db/leaderboard.cpp:83-85 | the order is transitive, the NULL time last |
| Leaderboard.AheadAsymmetric | src/db/leaderboard.cpp:83-85 | the order is strict |
| Leaderboard.BoardUnique | src/db/leaderboard.cpp:76-85 | the database determines the ranking |
| Leaderboard.RankingOrder | src/db/leaderboard.cpp:83-85 | on the columns: solved problems descending, then submissions, first AC with its absence last, registration and id ascending |
| Leaderboard.BoardExists | src/db/leaderboard.cpp:76-85 | every database has one |
| Leaderboard.TotalIsLength | src/db/leaderboard.cpp:55-70 | the total, counted without the join to users, is the length of the ranking |
| Leaderboard.Query | src/db/leaderboard.cpp:34-128 | an error exactly for a page or size below one, otherwise the window of the ordered rows, with the separately counted total equal to their number |
| Leaderboard.PagesMakeTheBoard | src/http/server.cpp:1584-1587 | the pages 1 to the announced last one concatenate to the whole ranking |
| Leaderboard.PageShownIff | src/http/server.cpp:1584-1587 | a page shows someone iff it is at most the announced last one |
| Leaderboard.RankPage | src/http/server.cpp:1565-1587 | each row's rank is its position in the whole ranking |
| RateLimiter.Limiter.Allow | src/auth/rate_limit.cpp:17-67 | the new deques, the sweep counter and the answer |
| RateLimiter.Limiter.Sweep | src/auth/rate_limit.cpp:24-37 | prunes every deque and drops exactly the empty ones |
| RateLimiter.Limiter.Decide | src/auth/rate_limit.cpp:39-66 | prunes the key's deque, then blocks or logs the attempt |
| RateLimiter.Limiter.Clear | src/auth/rate_limit.cpp:69-72 | forgets the key only |
| RateLimiter.LimiterFollowsReference | src/auth/rate_limit.cpp:17-72 | for every run in clock order the limiter allows what a limiter allows that keeps every attempt and never prunes or sweeps, and answers the next call alike |
| RateLimiter.DecidesOnCompleteLog | src/auth/rate_limit.cpp:23-66 | in clock order the answer is the one a complete log of the allowed attempts gives: pruning and sweeping never change it |
| RateLimiter.RunKeeps | src/auth/rate_limit.cpp:17-72 | for any lateness, after every run each deque is the live tail of the attempts the limiter allowed, and these are spread as far as the lateness leaves |
| RateLimiter.WindowBound | src/auth/rate_limit.cpp:42-48 | in clock order any closed window of the configured length holds at most the threshold of attempts that the limiter allowed a key since its last clear |
| RateLimiter.WindowBoundIff | src/auth/rate_limit.cpp:18-48 | with calls late by at most d, a window of length L is bounded in every run iff L is negative or at most window - d, for every configuration |
| RateLimiter.RetryAfterIsExact | src/auth/rate_limit.cpp:48-59 | after the limiter refused a call, over any run that follows without clearing the key: a call up to retry-after minus one second later is refused, and one more than retry-after later is allowed unless one was allowed before it |
| RateLimiter.StaysBlocked | src/auth/rate_limit.cpp:47-60 | within that time the limiter allows no attempt of the key, whatever calls of any keys and sweeps come in between |
| RateLimiter.OutOfOrderBreaksBound | src/auth/rate_limit.cpp:18-21 | an instance: a new limiter with a quota of two in ten seconds allows calls at 0, 0, 11 and 5 seconds |
| ProblemFilter.ParseTags | src/problem/validation.cpp:62-98 | accepts exactly the lists that meet every rule, trimmed, and only tags that survive storage |
| ProblemFilter.JoinTags | src/problem/validation.cpp:193-202 | the tags with commas between them |
| ProblemFilter.SplitTags | src/db/problems.cpp:108-133 | the trimmed non-empty pieces between the commas of any text |
| ProblemFilter.SplitUndoesJoin | src/db/problems.cpp:108-133 | splitting the joined text of validated tags gives the tags back |
| ProblemFilter.TrimMeaning | src/problem/validation.cpp:12-24 | trimming removes blanks at the ends and nothing else, and leaves none there |
| ProblemFilter.TagMeaning | src/problem/validation.cpp:78-90 | a stored tag is not empty, holds no comma and neither begins nor ends with a blank |
| ProblemFilter.TagFilterMeaning | src/db/problems.cpp:66-70 | for any stored text and query the filter holds iff the pieces of the query are consecutive pieces of the text |
| ProblemFilter.TagFilterIsMembership | src/problem/list_query.cpp:43-45 | for validated tags and a non-empty comma-free query it is membership |
| ProblemFilter.EscapeLike | src/problem/list_query.cpp:27-37 | escapes backslash, percent and underscore |
| ProblemFilter.EscapedIsLiteral | src/problem/list_query.cpp:27-37 | an escaped keyword matches itself literally, letter case aside, before any further pattern |
| ProblemFilter.TitlePatternMeaning | src/problem/list_query.cpp:39-41 | the pattern matches a title iff the keyword occurs in it, letter case aside |
| Ascii.LettersMatch | src/db/problems.cpp:57-60 | characters match iff they are equal or the two cases of one ASCII letter |
| ProblemFilter.BuildWhere | src/db/problems.cpp:44-76 | a row satisfies all conditions iff it is what the query asks for |

## Left out

- SQLite itself: tables are maps, a transaction commits or restores as a whole, texts are NUL-free
  and compared in one byte order; integer widths (such as the overflow of `submit_count`) are not modelled.
- Scheduler: fairness of the operating system's threads is not modelled; that workers drain the
  queue is proved for every schedule in which they keep taking steps. The `accepted_` and
  `completed_` counters, which are kept outside the lock, are not modelled.
- Recovery.RecoveryService.Run: the queue is taken to be full an arbitrary but finite number of times
  in a row (`Scheduler.SlotGetsFree` shows that a slot becomes free); a claim is taken as durable, and
  its loss is covered by `Lifecycle`.
- Lifecycle.StepKeeps: a crash falls between steps, never inside a transaction; ids are fresh, one
  instance runs at a time, and clocks yield a non-empty text. A registration is lost only while
  nothing refers to the user.
- Executor.Watch: fork, exec, namespaces, mounts, resource limits, `/proc`, feeding the standard
  input and `poll` are an arbitrary sequence of observations; peak memory and run time are not recorded.
- JudgeEngine.Judge: exceptions other than those of the executor are not modelled; messages, compiler
  output, timings and memory figures are not part of the result.
- JudgeEngine.StartedWithinBudget: a limit is measured from the clock reading it was computed from;
  the delay until the process is really started is not modelled.
- Seccomp.BuildProgram: the rule list is a parameter; the concrete system call numbers and the
  platform conditions that choose them are not modelled.
- Leaderboard.Query: the answers of the two SQL queries are parameters, defined by `Answers`; a failing
  statement and nicknames are left out.
- RateLimiter.Limiter.Allow: the lock and the reading of the clock are parameters of the order of calls.
- Out of scope: the guard against two rejudges of one submission at a time, request validation and
  paging parameters, JSON, HTTP routing, configuration, logging, authentication, user and test case
  administration, seed data, the web client, scrubbing of compiler diagnostics and workspace cleanup.
