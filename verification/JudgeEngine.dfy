/** One judge run: compile once, then run every test case in order under a global deadline. The
    clock, the token, the file system and the executor are answers of the `World`. */
module JudgeEngine {
  import opened JudgeStatus
  import opened Classification
  import opened Clock
  import Ascii
  import Comparator

  const INT_MAX := 0x7fff_ffff

  // ---------------------------------------------------------------------- deadlines

  /** The milliseconds left, rounded up. */
  function RemainingMs(deadline: int, now: int): int {
    if now >= deadline then 0
    else
      var count := (deadline - now + MS - 1) / MS;
      if count > INT_MAX then INT_MAX else count
  }

  function EffectiveTimeLimit(problemLimit: int, remaining: int): int {
    if problemLimit <= 0 || remaining <= 0 then 0
    else if problemLimit < remaining then problemLimit else remaining
  }

  /** Rounding up costs less than a millisecond, and no time is left exactly at the deadline. */
  lemma RemainingMsIsTight(deadline: int, now: int)
    ensures
      var left := RemainingMs(deadline, now);
      && (left > 0 <==> now < deadline)
      && (now < deadline ==> now + left * MS < deadline + MS)
      && (now < deadline && left < INT_MAX ==> deadline <= now + left * MS)
  {
  }

  // ------------------------------------------------------------------ worst verdict

  /** The summary of the cases: the worst status, or SYSERR if there are none. */
  predicate IsSummary(statuses: seq<Status>, worst: Status) {
    if statuses == [] then worst == SYSERR
    else worst in statuses && forall k :: 0 <= k < |statuses| ==> Severity(statuses[k]) <= Severity(worst)
  }

  method Summarize(statuses: seq<Status>) returns (worst: Status)
    ensures IsSummary(statuses, worst)
  {
    if statuses == [] {
      return SYSERR;
    }
    worst := AC;
    var severity := Severity(AC);
    for i := 0 to |statuses|
      invariant severity == Severity(worst)
      invariant worst == AC || worst in statuses
      invariant forall k :: 0 <= k < i ==> Severity(statuses[k]) <= severity
    {
      if Severity(statuses[i]) > severity {
        severity := Severity(statuses[i]);
        worst := statuses[i];
      }
    }
    if worst == AC {
      assert Severity(statuses[0]) == 0;
      assert statuses[0] == AC;
    }
  }

  /** The summary by what is present: a compile error, then an internal error, then the failures
      from TLE down to WA; AC only if there is nothing else. */
  lemma SummaryByPresence(statuses: seq<Status>, worst: Status)
    requires IsSummary(statuses, worst)
    ensures worst ==
              if statuses == [] then SYSERR
              else if CE in statuses then CE
              else if SYSERR in statuses then SYSERR
              else if TLE in statuses then TLE
              else if MLE in statuses then MLE
              else if RE in statuses then RE
              else if WA in statuses then WA
              else AC
  {
    forall status | status in statuses
      ensures Severity(status) <= Severity(worst)
    {
      var k :| 0 <= k < |statuses| && statuses[k] == status;
    }
  }

  /** The summary depends on the cases only, not on their order. */
  lemma SummaryIgnoresOrder(a: seq<Status>, b: seq<Status>, worst: Status, worst': Status)
    requires multiset(a) == multiset(b)
    requires IsSummary(a, worst) && IsSummary(b, worst')
    ensures worst == worst'
  {
    assert |a| == |multiset(a)| == |multiset(b)| == |b|;
    if a != [] {
      assert worst in multiset(a) && worst' in multiset(b);
      assert worst in b && worst' in a;
      assert Severity(worst) == Severity(worst');
    }
  }

  // ----------------------------------------------------------------- the judge's world

  datatype Testcase = Testcase(input: string, output: string)

  datatype Task = Task(language: string, testcases: seq<Testcase>, timeLimitMs: int)

  datatype Settings = Settings(compileTimeLimitMs: int, maxTimeLimitMs: int, globalTimeLimitMs: int)

  datatype GateAnswer = Ungated | Admitted | Refused

  /** What the run meets: the time at its start, the token and the gate before compiling, the
      compiler, and for each test case the token, the clock and the process. A process may
      depend on the limit it is given, and the executor may throw instead of returning one. */
  datatype World = World(
    start: int,
    cancelledAtStart: bool,
    workspaceCreated: bool,
    sourceWritten: bool,
    gate: GateAnswer,
    cancelledAtGate: bool,
    compileClock: int,
    compile: int -> ProcessResult,
    compileThrows: bool,
    executableExists: bool,
    token: nat -> bool,
    clock: nat -> int,
    run: (nat, int) -> ProcessResult,
    runThrows: nat -> bool)

  datatype Job = Job(task: Task, settings: Settings, world: World)

  datatype CaseResult = CaseResult(index: nat, status: Status, globalDeadlineHit: bool, actualOutput: string)

  datatype JudgeResult = JudgeResult(
    status: Status,
    compileOk: bool,
    cases: seq<CaseResult>,
    total: nat,
    passed: nat,
    globalDeadlineHit: bool,
    cancelled: bool)

  /** What the run does to the outside, in order. */
  datatype Event =
    | GateAcquired
    | GateReleased
    | CompileStarted(at: int, limitMs: int)
    | RunStarted(index: nat, at: int, limitMs: int)

  function Lowered(text: string): string {
    seq(|text|, i requires 0 <= i < |text| => Ascii.Lower(text[i]))
  }

  predicate KnownLanguage(language: string) {
    Lowered(language) in {"c++17", "cpp17", "c++", "cpp", "c11", "c"}
  }

  function DeadlineOf(j: Job): int {
    j.world.start + j.settings.globalTimeLimitMs * MS
  }

  function ProblemLimit(j: Job): int {
    if j.task.timeLimitMs > j.settings.maxTimeLimitMs then j.settings.maxTimeLimitMs else j.task.timeLimitMs
  }

  // ------------------------------------------------------------- meaning: compilation

  predicate InputOk(j: Job) {
    KnownLanguage(j.task.language) && j.task.testcases != [] && j.task.timeLimitMs > 0
  }

  /** The run gets as far as asking the gate. */
  predicate AsksGate(j: Job) {
    InputOk(j) && !j.world.cancelledAtStart && j.world.workspaceCreated && j.world.sourceWritten
  }

  predicate Permitted(j: Job) {
    AsksGate(j) && !j.world.gate.Refused?
  }

  predicate Compiles(j: Job) {
    Permitted(j) && j.world.compileClock < DeadlineOf(j)
  }

  predicate CompilerReturns(j: Job) {
    Compiles(j) && !j.world.compileThrows
  }

  predicate CompileCapped(j: Job) {
    j.settings.compileTimeLimitMs > RemainingMs(DeadlineOf(j), j.world.compileClock)
  }

  function CompileLimit(j: Job): int {
    if CompileCapped(j) then RemainingMs(DeadlineOf(j), j.world.compileClock) else j.settings.compileTimeLimitMs
  }

  function CompilerRun(j: Job): ProcessResult {
    j.world.compile(CompileLimit(j))
  }

  /** The compiler stopped by itself, or by its own limit. */
  predicate CompilerAnswered(p: ProcessResult) {
    !p.cancelled && !p.launchError && !p.timedOut && p.exited && p.termSignal == 0
  }

  predicate Built(j: Job) {
    && CompilerReturns(j) && CompilerAnswered(CompilerRun(j)) && CompilerRun(j).exitCode == 0
    && j.world.executableExists
  }

  /** The source is to blame: it was rejected, or it exceeded the compile limit itself. */
  predicate SourceRejected(j: Job) {
    var p := CompilerRun(j);
    && CompilerReturns(j) && !p.cancelled && !p.launchError
    && (if p.timedOut then !CompileCapped(j) else CompilerAnswered(p) && p.exitCode != 0)
  }

  predicate CancelledBeforeRuns(j: Job) {
    || (InputOk(j) && j.world.cancelledAtStart)
    || (AsksGate(j) && j.world.gate.Refused? && j.world.cancelledAtGate)
    || (CompilerReturns(j) && CompilerRun(j).cancelled)
  }

  predicate ExhaustedBeforeRuns(j: Job) {
    || (AsksGate(j) && j.world.gate.Refused? && !j.world.cancelledAtGate)
    || (Permitted(j) && !Compiles(j))
    || (&& CompilerReturns(j) && !CompilerRun(j).cancelled && !CompilerRun(j).launchError
        && CompilerRun(j).timedOut && CompileCapped(j))
  }

  // --------------------------------------------------------------- meaning: test cases

  function LimitOf(j: Job, i: nat): int {
    EffectiveTimeLimit(ProblemLimit(j), RemainingMs(DeadlineOf(j), j.world.clock(i)))
  }

  predicate Capped(j: Job, i: nat) {
    LimitOf(j, i) < ProblemLimit(j)
  }

  function ProcessOf(j: Job, i: nat): ProcessResult {
    j.world.run(i, LimitOf(j, i))
  }

  ghost function VerdictOf(j: Job, i: nat): Verdict
    requires i < |j.task.testcases|
  {
    ClassifyCase(ProcessOf(j, i), Capped(j, i),
                 Comparator.Normal(j.task.testcases[i].output) == Comparator.Normal(ProcessOf(j, i).output))
  }

  ghost function CaseOf(j: Job, i: nat): CaseResult
    requires i < |j.task.testcases|
  {
    var v := VerdictOf(j, i);
    CaseResult(i, v.status, v.globalDeadlineHit, if v.status == AC then "" else ProcessOf(j, i).output)
  }

  predicate HasBudget(j: Job, i: nat) {
    LimitOf(j, i) > 0
  }

  predicate Starts(j: Job, i: nat) {
    !j.world.token(i) && HasBudget(j, i)
  }

  /** The executor throws out of test case `i`. */
  predicate Throws(j: Job, i: nat) {
    j.world.runThrows(i)
  }

  ghost predicate Aborts(j: Job, i: nat)
    requires i < |j.task.testcases|
  {
    VerdictOf(j, i).abortRemaining
  }

  /** The run stopped after `n` cases because the last of them aborted it. */
  ghost predicate AbortedAfter(j: Job, n: nat)
    requires n <= |j.task.testcases|
  {
    n > 0 && Aborts(j, n - 1)
  }

  /** The first `n` cases ran to their end, and none but the last aborted the run. */
  ghost predicate Ran(j: Job, n: nat)
    requires n <= |j.task.testcases|
  {
    && (forall i: nat :: i < n ==> Starts(j, i) && !Throws(j, i))
    && NoneAbortsBefore(j, n)
  }

  ghost predicate NoneAbortsBefore(j: Job, n: nat)
    requires n <= |j.task.testcases|
  {
    forall i: nat :: i + 1 < n ==> !Aborts(j, i)
  }

  /** The number of cases run to their end: exactly one `n` satisfies this. */
  ghost predicate RunLength(j: Job, n: nat) {
    && n <= |j.task.testcases|
    && Ran(j, n)
    && (n == |j.task.testcases| || AbortedAfter(j, n) || !Starts(j, n) || Throws(j, n))
  }

  /** After `n` cases the executor threw out of the next one. */
  ghost predicate BrokenAfter(j: Job, n: nat)
    requires n <= |j.task.testcases|
  {
    n < |j.task.testcases| && !AbortedAfter(j, n) && Starts(j, n) && Throws(j, n)
  }

  ghost predicate CancelledDuringRuns(j: Job, n: nat)
    requires n <= |j.task.testcases|
  {
    if AbortedAfter(j, n) then ProcessOf(j, n - 1).cancelled
    else n < |j.task.testcases| && j.world.token(n)
  }

  ghost predicate ExhaustedDuringRuns(j: Job, n: nat)
    requires n <= |j.task.testcases|
  {
    if AbortedAfter(j, n) then VerdictOf(j, n - 1).globalDeadlineHit
    else n < |j.task.testcases| && !j.world.token(n) && !HasBudget(j, n)
  }

  /** The entries of the first cases, in order. */
  ghost predicate Reports(j: Job, cases: seq<CaseResult>) {
    |cases| <= |j.task.testcases| && forall i :: 0 <= i < |cases| ==> cases[i] == CaseOf(j, i)
  }

  function Statuses(cases: seq<CaseResult>): (statuses: seq<Status>)
    ensures |statuses| == |cases| && forall i :: 0 <= i < |cases| ==> statuses[i] == cases[i].status
  {
    seq(|cases|, i requires 0 <= i < |cases| => cases[i].status)
  }

  function CountAc(cases: seq<CaseResult>): nat {
    if cases == [] then 0
    else CountAc(cases[..|cases| - 1]) + if cases[|cases| - 1].status == AC then 1 else 0
  }

  function RunsUpTo(j: Job, n: nat): seq<Event> {
    if n == 0 then [] else RunsUpTo(j, n - 1) + [RunStarted(n - 1, j.world.clock(n - 1), LimitOf(j, n - 1))]
  }

  function Acquiring(gate: GateAnswer): seq<Event> {
    if gate.Admitted? then [GateAcquired] else []
  }

  function Releasing(gate: GateAnswer): seq<Event> {
    if gate.Admitted? then [GateReleased] else []
  }

  /** The events before the first test case. */
  function Prologue(j: Job): seq<Event> {
    if !Permitted(j) then []
    else if !Compiles(j) then Acquiring(j.world.gate) + Releasing(j.world.gate)
    else Acquiring(j.world.gate) + [CompileStarted(j.world.compileClock, CompileLimit(j))] + Releasing(j.world.gate)
  }

  /** The events of a run that started `n` cases. */
  function LogOf(j: Job, n: nat): seq<Event> {
    Prologue(j) + RunsUpTo(j, n)
  }

  /** The result when the executor throws: the caller reports an internal error. */
  function InternalError(j: Job): JudgeResult {
    JudgeResult(SYSERR, false, [], |j.task.testcases|, 0, false, false)
  }

  /** The result and the events that the job calls for. */
  ghost predicate IsJudgement(j: Job, r: JudgeResult, log: seq<Event>) {
    exists n: nat :: Judged(j, n, r, log)
  }

  /** With `n` cases run to their end. */
  ghost predicate Judged(j: Job, n: nat, r: JudgeResult, log: seq<Event>) {
    && r.total == |j.task.testcases|
    && r.passed == CountAc(r.cases)
    && (if !Built(j) then n == 0 && FailedEarly(j, r) && log == LogOf(j, 0)
        else RunLength(j, n) && if BrokenAfter(j, n) then r == InternalError(j) && log == LogOf(j, n + 1)
                                else |r.cases| == n && RanTo(j, r) && log == LogOf(j, n))
  }

  ghost predicate FailedEarly(j: Job, r: JudgeResult) {
    && !r.compileOk && r.cases == []
    && r.status == (if SourceRejected(j) then CE else SYSERR)
    && r.cancelled == CancelledBeforeRuns(j)
    && r.globalDeadlineHit == ExhaustedBeforeRuns(j)
  }

  ghost predicate RanTo(j: Job, r: JudgeResult) {
    var n := |r.cases|;
    && RunLength(j, n) && !BrokenAfter(j, n)
    && r.compileOk && Reports(j, r.cases)
    && r.cancelled == CancelledDuringRuns(j, n)
    && r.globalDeadlineHit == ExhaustedDuringRuns(j, n)
    && (if r.cancelled || r.globalDeadlineHit then r.status == SYSERR else IsSummary(Statuses(r.cases), r.status))
  }

  // ---------------------------------------------------------------------- the engine

  /** The guard's release: by `release_now` and again by its destructor, once in effect. */
  method ReleaseGuard(gated: bool, acquired: bool, log: seq<Event>) returns (acquired': bool, log': seq<Event>)
    ensures gated ==> !acquired'
    ensures !gated ==> acquired' == acquired
    ensures log' == if gated && acquired then log + [GateReleased] else log
  {
    acquired', log' := acquired, log;
    if acquired && gated {
      log' := log + [GateReleased];
      acquired' := false;
    }
  }

  /** The checks before a test case is started. */
  method EnterCase(j: Job, i: nat) returns (cancelled: bool, exhausted: bool, limit: int)
    ensures cancelled == j.world.token(i)
    ensures exhausted == (!j.world.token(i) && !HasBudget(j, i))
    ensures Starts(j, i) ==> limit == LimitOf(j, i)
  {
    cancelled, exhausted, limit := false, false, 0;
    if j.world.token(i) {
      return true, false, 0;
    }
    var remaining := RemainingMs(DeadlineOf(j), j.world.clock(i));
    if remaining <= 0 {
      return false, true, 0;
    }
    limit := EffectiveTimeLimit(ProblemLimit(j), remaining);
    if limit <= 0 {
      return false, true, 0;
    }
  }

  method RunCase(j: Job, i: nat, limit: int) returns (process: ProcessResult, verdict: Verdict, entry: CaseResult)
    requires i < |j.task.testcases| && limit == LimitOf(j, i)
    ensures process == ProcessOf(j, i) && verdict == VerdictOf(j, i) && entry == CaseOf(j, i)
  {
    process := j.world.run(i, limit);
    var matches := Comparator.OutputsMatch(j.task.testcases[i].output, process.output);
    verdict := ClassifyCase(process, limit < ProblemLimit(j), matches);
    entry := CaseResult(i, verdict.status, verdict.globalDeadlineHit, "");
    if verdict.status != AC {
      entry := entry.(actualOutput := process.output);
    }
  }

  /** What the loop knows after `i` cases that did not stop it. */
  ghost predicate Progress(j: Job, i: nat, cases: seq<CaseResult>, passed: nat, log: seq<Event>) {
    && i <= |j.task.testcases| && Ran(j, i) && !AbortedAfter(j, i)
    && |cases| == i && Reports(j, cases) && passed == CountAc(cases) && log == RunsUpTo(j, i)
  }

  lemma RanOneMore(j: Job, i: nat, cases: seq<CaseResult>, passed: nat, log: seq<Event>)
    requires Progress(j, i, cases, passed, log) && i < |j.task.testcases| && Starts(j, i) && !Throws(j, i)
    ensures Ran(j, i + 1) && (AbortedAfter(j, i + 1) <==> VerdictOf(j, i).abortRemaining)
    ensures Reports(j, cases + [CaseOf(j, i)])
    ensures CountAc(cases + [CaseOf(j, i)]) == passed + if VerdictOf(j, i).status == AC then 1 else 0
    ensures log + [RunStarted(i, j.world.clock(i), LimitOf(j, i))] == RunsUpTo(j, i + 1)
  {
    assert (cases + [CaseOf(j, i)])[..|cases|] == cases;
  }

  /** An aborted run was cancelled, could not be launched, or exhausted the budget. */
  lemma AbortMeaning(j: Job, i: nat)
    requires i < |j.task.testcases| && Aborts(j, i)
    ensures VerdictOf(j, i).globalDeadlineHit <==> !ProcessOf(j, i).cancelled && !ProcessOf(j, i).launchError
  {
  }

  ghost predicate Finished(j: Job, cases: seq<CaseResult>, passed: nat, cancelled: bool, exhausted: bool,
                           log: seq<Event>)
  {
    var n := |cases|;
    && RunLength(j, n) && !BrokenAfter(j, n)
    && Reports(j, cases) && passed == CountAc(cases) && log == RunsUpTo(j, n)
    && cancelled == CancelledDuringRuns(j, n) && exhausted == ExhaustedDuringRuns(j, n)
  }

  lemma StoppedBefore(j: Job, i: nat, cases: seq<CaseResult>, passed: nat, cancelled: bool, exhausted: bool,
                      log: seq<Event>)
    requires Progress(j, i, cases, passed, log) && i < |j.task.testcases| && !Starts(j, i)
    requires cancelled == j.world.token(i) && exhausted == (!j.world.token(i) && !HasBudget(j, i))
    ensures Finished(j, cases, passed, cancelled, exhausted, log)
  {
  }

  lemma StoppedAfter(j: Job, i: nat, cases: seq<CaseResult>, passed: nat, log: seq<Event>)
    requires 0 < i <= |j.task.testcases| && Ran(j, i) && Aborts(j, i - 1)
    requires |cases| == i && Reports(j, cases) && passed == CountAc(cases) && log == RunsUpTo(j, i)
    ensures
      var p := ProcessOf(j, i - 1);
      Finished(j, cases, passed, p.cancelled, !p.cancelled && !p.launchError, log)
  {
    AbortFlags(j, i);
  }

  lemma AbortFlags(j: Job, i: nat)
    requires 0 < i <= |j.task.testcases| && Aborts(j, i - 1)
    ensures CancelledDuringRuns(j, i) == ProcessOf(j, i - 1).cancelled
    ensures ExhaustedDuringRuns(j, i) == (!ProcessOf(j, i - 1).cancelled && !ProcessOf(j, i - 1).launchError)
  {
    AbortMeaning(j, i - 1);
  }

  /** One more case: the loop goes on, or the run is finished. */
  lemma AfterCase(j: Job, i: nat, cases: seq<CaseResult>, passed: nat, log: seq<Event>)
    requires Progress(j, i, cases, passed, log) && i < |j.task.testcases| && Starts(j, i) && !Throws(j, i)
    ensures
      var verdict, p := VerdictOf(j, i), ProcessOf(j, i);
      var cases', passed' := cases + [CaseOf(j, i)], passed + if verdict.status == AC then 1 else 0;
      var log' := log + [RunStarted(i, j.world.clock(i), LimitOf(j, i))];
      if verdict.abortRemaining then Finished(j, cases', passed', p.cancelled, !p.cancelled && !p.launchError, log')
      else Progress(j, i + 1, cases', passed', log')
  {
    RanOneMore(j, i, cases, passed, log);
    if Aborts(j, i) {
      StoppedAfter(j, i + 1, cases + [CaseOf(j, i)], passed + if VerdictOf(j, i).status == AC then 1 else 0,
                   log + [RunStarted(i, j.world.clock(i), LimitOf(j, i))]);
    }
  }

  /** The executor threw out of the case after the first `n`. */
  ghost predicate Broken(j: Job, n: nat, log: seq<Event>) {
    RunLength(j, n) && BrokenAfter(j, n) && log == RunsUpTo(j, n + 1)
  }

  method RunLoop(j: Job)
    returns (cases: seq<CaseResult>, passed: nat, cancelled: bool, exhausted: bool, threw: bool, log: seq<Event>)
    ensures threw ==> Broken(j, |cases|, log)
    ensures !threw ==> Finished(j, cases, passed, cancelled, exhausted, log)
  {
    cases, passed, cancelled, exhausted, threw, log := [], 0, false, false, false, [];
    var i := 0;
    while i < |j.task.testcases|
      invariant Progress(j, i, cases, passed, log) && !cancelled && !exhausted && !threw
    {
      var limit;
      cancelled, exhausted, limit := EnterCase(j, i);
      if cancelled || exhausted {
        StoppedBefore(j, i, cases, passed, cancelled, exhausted, log);
        return;
      }
      if j.world.runThrows(i) {
        return cases, passed, false, false, true, log + [RunStarted(i, j.world.clock(i), limit)];
      }
      var process, verdict, entry := RunCase(j, i, limit);
      AfterCase(j, i, cases, passed, log);
      log := log + [RunStarted(i, j.world.clock(i), limit)];
      cases := cases + [entry];
      passed := passed + if verdict.status == AC then 1 else 0;
      i := i + 1;
      if verdict.abortRemaining {
        return cases, passed, process.cancelled, !process.cancelled && !process.launchError, false, log;
      }
    }
  }

  method RunCases(j: Job) returns (r: JudgeResult, log: seq<Event>)
    requires Built(j)
    ensures IsJudgement(j, r, Prologue(j) + log)
  {
    var cases, passed, cancelled, exhausted, threw;
    cases, passed, cancelled, exhausted, threw, log := RunLoop(j);
    if threw {
      r := InternalError(j);
      assert Judged(j, |cases|, r, Prologue(j) + log);
      return;
    }
    var status := Summarize(Statuses(cases));
    if exhausted || cancelled {
      status := SYSERR;
    }
    r := JudgeResult(status, true, cases, |j.task.testcases|, passed, exhausted, cancelled);
    assert Judged(j, |cases|, r, Prologue(j) + log);
  }

  /** The run while it may hold a compile permit. */
  method CompileAndRun(j: Job, gated: bool, acquired: bool, log: seq<Event>)
    returns (r: JudgeResult, log': seq<Event>, acquired': bool)
    requires Permitted(j) && acquired && gated == j.world.gate.Admitted?
    requires log == Acquiring(j.world.gate)
    ensures IsJudgement(j, r, if gated && acquired' then log' + [GateReleased] else log')
  {
    log', acquired' := log, acquired;
    r := InternalError(j);
    var remaining := RemainingMs(DeadlineOf(j), j.world.compileClock);
    if remaining <= 0 {
      r := r.(globalDeadlineHit := true);
      FailedJudgement(j, r);
      return;
    }
    var limit, capped := j.settings.compileTimeLimitMs, false;
    if limit > remaining {
      limit, capped := remaining, true;
    }
    log' := log' + [CompileStarted(j.world.compileClock, limit)];
    if j.world.compileThrows {
      assert log' + Releasing(j.world.gate) == Prologue(j);
      assert !gated ==> log' + [] == log';
      FailedJudgement(j, r);
      return;
    }
    var p := j.world.compile(limit);
    acquired', log' := ReleaseGuard(gated, acquired', log');
    assert log' == Prologue(j);
    if p.cancelled {
      r := r.(cancelled := true);
    } else if p.launchError {
    } else if p.timedOut {
      if capped {
        r := r.(globalDeadlineHit := true);
      } else {
        r := r.(status := CE);
      }
    } else if !p.exited || p.termSignal != 0 {
    } else if p.exitCode != 0 {
      r := r.(status := CE);
    } else if !j.world.executableExists {
    } else {
      var runs;
      r, runs := RunCases(j);
      log' := log' + runs;
      return;
    }
    FailedJudgement(j, r);
  }

  lemma FailedJudgement(j: Job, r: JudgeResult)
    requires !Built(j) && FailedEarly(j, r) && r.total == |j.task.testcases| && r.passed == 0
    ensures IsJudgement(j, r, Prologue(j))
  {
    assert Prologue(j) == LogOf(j, 0);
    assert Judged(j, 0, r, Prologue(j));
  }

  /** The engine with its caller: an exception becomes an internal error, after the guard has
      been destroyed. */
  method Judge(j: Job) returns (r: JudgeResult, log: seq<Event>)
    ensures IsJudgement(j, r, log)
  {
    log := [];
    r := InternalError(j);
    if !KnownLanguage(j.task.language) || j.task.testcases == [] || j.task.timeLimitMs <= 0 {
      FailedJudgement(j, r);
      return;
    }
    if j.world.cancelledAtStart {
      r := r.(cancelled := true);
      FailedJudgement(j, r);
      return;
    }
    if !j.world.workspaceCreated || !j.world.sourceWritten {
      FailedJudgement(j, r);
      return;
    }
    var gated := !j.world.gate.Ungated?;
    var acquired := !gated || j.world.gate.Admitted?;
    if gated && acquired {
      log := log + [GateAcquired];
    }
    if !acquired {
      r := if j.world.cancelledAtGate then r.(cancelled := true) else r.(globalDeadlineHit := true);
      FailedJudgement(j, r);
    } else {
      r, log, acquired := CompileAndRun(j, gated, acquired, log);
    }
    acquired, log := ReleaseGuard(gated, acquired, log);
  }

  // ------------------------------------------------------------------------ theorems

  /** Everything went well in case `i`. */
  ghost predicate CaseClean(j: Job, i: nat)
    requires i < |j.task.testcases|
  {
    && Starts(j, i) && !Throws(j, i)
    && RanCleanly(ProcessOf(j, i))
    && Comparator.Interchangeable(j.task.testcases[i].output, ProcessOf(j, i).output)
  }

  lemma CleanIffAc(j: Job, i: nat)
    requires i < |j.task.testcases|
    ensures Starts(j, i) && !Throws(j, i) ==> (CaseClean(j, i) <==> VerdictOf(j, i).status == AC)
    ensures CaseClean(j, i) ==> !Aborts(j, i)
  {
    Comparator.SameNormalIffInterchangeable(j.task.testcases[i].output, ProcessOf(j, i).output);
  }

  /** The run length is unique, so a judgement is a function of its job. */
  lemma RunLengthUnique(j: Job, n: nat, m: nat)
    requires RunLength(j, n) && RunLength(j, m)
    ensures n == m
  {
    assert n < m ==> Starts(j, n) && !Throws(j, n);
    assert m < n ==> Starts(j, m) && !Throws(j, m);
  }

  lemma ReportsUnique(j: Job, a: seq<CaseResult>, b: seq<CaseResult>)
    requires Reports(j, a) && Reports(j, b) && |a| == |b|
    ensures a == b
  {
  }

  lemma RunUnique(j: Job, r: JudgeResult, r': JudgeResult)
    requires RanTo(j, r) && RanTo(j, r')
    ensures r.cases == r'.cases && r.status == r'.status
    ensures r.cancelled == r'.cancelled && r.globalDeadlineHit == r'.globalDeadlineHit
  {
    RunLengthUnique(j, |r.cases|, |r'.cases|);
    ReportsUnique(j, r.cases, r'.cases);
    if !r.cancelled && !r.globalDeadlineHit {
      SummaryIgnoresOrder(Statuses(r.cases), Statuses(r'.cases), r.status, r'.status);
    }
  }

  lemma JudgementUnique(j: Job, r: JudgeResult, log: seq<Event>, r': JudgeResult, log': seq<Event>)
    requires IsJudgement(j, r, log) && IsJudgement(j, r', log')
    ensures r == r' && log == log'
  {
    var n: nat :| Judged(j, n, r, log);
    var n': nat :| Judged(j, n', r', log');
    JudgedUnique(j, n, r, log, n', r', log');
  }

  lemma JudgedUnique(j: Job, n: nat, r: JudgeResult, log: seq<Event>, n': nat, r': JudgeResult, log': seq<Event>)
    requires Judged(j, n, r, log) && Judged(j, n', r', log')
    ensures n == n' && r == r' && log == log'
  {
    if Built(j) {
      RunLengthUnique(j, n, n');
      if !BrokenAfter(j, n) {
        RunUnique(j, r, r');
      }
    }
  }

  /** AC exactly when the program was built and every test case, each started within the
      budget and before any cancellation, ended cleanly with a matching output. */
  lemma AcceptedIff(j: Job, r: JudgeResult, log: seq<Event>)
    requires IsJudgement(j, r, log)
    ensures r.status == AC <==> Built(j) && AllClean(j)
  {
    var n: nat :| Judged(j, n, r, log);
    if !Built(j) {
      assert FailedEarly(j, r);
    } else if BrokenAfter(j, n) {
      assert !CaseClean(j, n);
    } else {
      AcceptedRanIff(j, r);
    }
  }

  ghost predicate AllClean(j: Job) {
    forall i: nat :: i < |j.task.testcases| ==> CaseClean(j, i)
  }

  lemma AcceptedRanIff(j: Job, r: JudgeResult)
    requires RanTo(j, r) && j.task.testcases != []
    ensures r.status == AC <==> AllClean(j)
  {
    if r.status == AC {
      AcceptedRanAll(j, r);
    }
    if AllClean(j) {
      CleanMeansAccepted(j, r);
    }
  }

  lemma AcceptedRanAll(j: Job, r: JudgeResult)
    requires RanTo(j, r) && r.status == AC
    ensures AllClean(j)
  {
    var n := |r.cases|;
    assert IsSummary(Statuses(r.cases), AC);
    forall i: nat | i < n
      ensures CaseClean(j, i)
    {
      AllAcInSummary(r.cases, i);
      ReportedAcIsClean(j, n, i);
    }
    CleanIffAc(j, n - 1);
  }

  lemma AllAcInSummary(cases: seq<CaseResult>, i: nat)
    requires IsSummary(Statuses(cases), AC) && i < |cases|
    ensures cases[i].status == AC
  {
    assert Severity(Statuses(cases)[i]) <= 0;
  }

  lemma ReportedAcIsClean(j: Job, n: nat, i: nat)
    requires i < n <= |j.task.testcases| && Ran(j, n) && CaseOf(j, i).status == AC
    ensures CaseClean(j, i)
  {
    assert Starts(j, i) && !Throws(j, i);
    CleanIffAc(j, i);
  }

  lemma CleanRunsAll(j: Job, n: nat)
    requires RunLength(j, n) && AllClean(j)
    ensures n == |j.task.testcases| && !AbortedAfter(j, n)
  {
    if n > 0 {
      CleanIffAc(j, n - 1);
    }
    assert n < |j.task.testcases| ==> CaseClean(j, n);
  }

  lemma CleanMeansAccepted(j: Job, r: JudgeResult)
    requires RanTo(j, r) && j.task.testcases != [] && AllClean(j)
    ensures r.status == AC
  {
    CleanRunsAll(j, |r.cases|);
    assert IsSummary(Statuses(r.cases), r.status);
    var i: nat :| i < |r.cases| && Statuses(r.cases)[i] == r.status;
    assert r.cases[i] == CaseOf(j, i);
    assert CaseClean(j, i);
    CleanIffAc(j, i);
  }

  /** The compiler succeeded within its limit. */
  predicate Succeeded(p: ProcessResult) {
    && !p.cancelled && !p.launchError && !p.timedOut && p.exited && p.termSignal == 0 && p.exitCode == 0
  }

  /** Nothing but the source and its judging stands in the way. */
  predicate Undisturbed(j: Job) {
    var end := j.world.start + j.settings.globalTimeLimitMs * 1_000_000;
    && KnownLanguage(j.task.language) && j.task.testcases != [] && j.task.timeLimitMs > 0
    && !j.world.cancelledAtStart && j.world.workspaceCreated && j.world.sourceWritten
    && j.world.gate != Refused && j.world.compileClock < end && !j.world.compileThrows
  }

  /** The case was started in time and uncancelled, returned, ended cleanly and matched. */
  ghost predicate CaseFine(j: Job, i: nat)
    requires i < |j.task.testcases|
  {
    var end := j.world.start + j.settings.globalTimeLimitMs * 1_000_000;
    var p := j.world.run(i, LimitOf(j, i));
    && !j.world.token(i) && j.world.clock(i) < end && !j.world.runThrows(i)
    && !p.launchError && !p.cancelled && !p.timedOut && !p.memoryExceeded
    && p.exited && p.exitCode == 0 && p.termSignal == 0 && !p.outputTruncated
    && Comparator.Interchangeable(j.task.testcases[i].output, p.output)
  }

  lemma CleanOnTheWorld(j: Job, i: nat)
    requires i < |j.task.testcases|
    ensures CaseClean(j, i) <==> CaseFine(j, i) && j.task.timeLimitMs > 0 && j.settings.maxTimeLimitMs > 0
  {
    StartsOnTheClock(j, i);
  }

  /** AC read off the job field by field. */
  lemma AcceptedOnTheWorld(j: Job, r: JudgeResult, log: seq<Event>)
    requires IsJudgement(j, r, log)
    ensures r.status == AC <==>
              && Undisturbed(j) && Succeeded(j.world.compile(CompileLimit(j))) && j.world.executableExists
              && j.settings.maxTimeLimitMs > 0
              && forall i: nat :: i < |j.task.testcases| ==> CaseFine(j, i)
  {
    AcceptedIff(j, r, log);
    BuiltOnTheWorld(j);
    forall i: nat | i < |j.task.testcases|
      ensures CaseClean(j, i) <==> CaseFine(j, i) && j.task.timeLimitMs > 0 && j.settings.maxTimeLimitMs > 0
    {
      CleanOnTheWorld(j, i);
    }
    if j.task.testcases != [] {
      assert AllClean(j) ==> CaseClean(j, 0);
    }
  }

  /** CE read off the job field by field: the compiler rejected the source, or ran over the
      configured limit. */
  lemma CompileErrorOnTheWorld(j: Job, r: JudgeResult, log: seq<Event>)
    requires IsJudgement(j, r, log)
    ensures
      var p := j.world.compile(CompileLimit(j));
      r.status == CE <==>
        && Undisturbed(j) && !p.cancelled && !p.launchError
        && (if p.timedOut then CompileLimit(j) == j.settings.compileTimeLimitMs
            else p.exited && p.termSignal == 0 && p.exitCode != 0)
  {
    CompileErrorIff(j, r, log);
  }

  lemma BuiltOnTheWorld(j: Job)
    ensures Built(j) <==>
              Undisturbed(j) && Succeeded(j.world.compile(CompileLimit(j))) && j.world.executableExists
  {
  }

  lemma CompileErrorIff(j: Job, r: JudgeResult, log: seq<Event>)
    requires IsJudgement(j, r, log)
    ensures r.status == CE <==> SourceRejected(j)
  {
    var n: nat :| Judged(j, n, r, log);
    if Built(j) && !BrokenAfter(j, n) && !r.cancelled && !r.globalDeadlineHit {
      NoCaseIsCe(j, r);
    }
  }

  lemma NoCaseIsCe(j: Job, r: JudgeResult)
    requires Reports(j, r.cases) && IsSummary(Statuses(r.cases), r.status)
    ensures r.status != CE
  {
    forall i | 0 <= i < |r.cases|
      ensures Statuses(r.cases)[i] != CE
    {
      assert r.cases[i] == CaseOf(j, i);
    }
  }

  /** The flags of a run that came to its test cases, on what its last case did or what kept the next
      one from being started. */
  lemma FlagsDuringRuns(j: Job, r: JudgeResult, log: seq<Event>)
    requires IsJudgement(j, r, log) && r.compileOk
    ensures
      var w, n := j.world, |r.cases|;
      var end := w.start + j.settings.globalTimeLimitMs * 1_000_000;
      && n <= |j.task.testcases|
      && (if n > 0 && StopsTheRun(j, n - 1) then
            && r.cancelled == ProcessOf(j, n - 1).cancelled
            && r.globalDeadlineHit == (!ProcessOf(j, n - 1).cancelled && !ProcessOf(j, n - 1).launchError)
          else
            && r.cancelled == (n < |j.task.testcases| && w.token(n))
            && r.globalDeadlineHit ==
                 (n < |j.task.testcases| && !w.token(n) && (w.clock(n) >= end || j.settings.maxTimeLimitMs <= 0)))
  {
    var n: nat :| Judged(j, n, r, log);
    StartsOnTheClock(j, n);
    if n > 0 {
      StopsIffAborts(j, n - 1);
      if Aborts(j, n - 1) {
        AbortFlags(j, n);
      }
    }
    if !AbortedAfter(j, n) {
      RunFlags(j, n);
    }
  }

  /** The process of the case was cancelled, not launched, or stopped by what was left of the
      budget. */
  predicate StopsTheRun(j: Job, i: nat) {
    ProcessOf(j, i).cancelled || ProcessOf(j, i).launchError || StoppedByBudget(j, i)
  }

  lemma StopsIffAborts(j: Job, i: nat)
    requires i < |j.task.testcases|
    ensures StopsTheRun(j, i) <==> Aborts(j, i)
  {
  }

  lemma RunFlags(j: Job, n: nat)
    requires n <= |j.task.testcases| && j.task.timeLimitMs > 0 && !AbortedAfter(j, n)
    ensures CancelledDuringRuns(j, n) == (n < |j.task.testcases| && j.world.token(n))
    ensures ExhaustedDuringRuns(j, n) ==
              (n < |j.task.testcases| && !j.world.token(n)
               && (j.world.clock(n) >= DeadlineOf(j) || j.settings.maxTimeLimitMs <= 0))
  {
    StartsOnTheClock(j, n);
  }

  /** The flags of a run that did not come to its test cases. */
  lemma FlagsBeforeRuns(j: Job, r: JudgeResult, log: seq<Event>)
    requires IsJudgement(j, r, log) && !Built(j)
    ensures
      var w, p := j.world, j.world.compile(CompileLimit(j));
      var end := w.start + j.settings.globalTimeLimitMs * 1_000_000;
      var valid := KnownLanguage(j.task.language) && j.task.testcases != [] && j.task.timeLimitMs > 0;
      var prepared := valid && !w.cancelledAtStart && w.workspaceCreated && w.sourceWritten;
      && (r.cancelled <==>
            || (valid && w.cancelledAtStart)
            || (prepared && w.gate == Refused && w.cancelledAtGate)
            || (Undisturbed(j) && p.cancelled))
      && (r.globalDeadlineHit <==>
            || (prepared && w.gate == Refused && !w.cancelledAtGate)
            || (prepared && w.gate != Refused && w.compileClock >= end)
            || (&& Undisturbed(j) && !p.cancelled && !p.launchError && p.timedOut
                && CompileLimit(j) < j.settings.compileTimeLimitMs))
  {
    var n: nat :| Judged(j, n, r, log);
  }

  /** Names of languages are read without regard to letter case. */
  lemma LanguagesKnown()
    ensures KnownLanguage("cpp17") && KnownLanguage("C++17") && KnownLanguage("CPP") && KnownLanguage("c++")
    ensures KnownLanguage("C11") && KnownLanguage("c")
    ensures !KnownLanguage("") && !KnownLanguage("c99") && !KnownLanguage("python")
  {
    assert Lowered("cpp17") == "cpp17" && Lowered("C++17") == "c++17" && Lowered("CPP") == "cpp";
    assert Lowered("c++") == "c++" && Lowered("C11") == "c11" && Lowered("c") == "c";
    assert Lowered("") == "" && Lowered("c99") == "c99" && Lowered("python") == "python";
  }

  ghost function Passing(cases: seq<CaseResult>): set<nat> {
    set i: nat | i < |cases| && cases[i].status == AC
  }

  lemma {:induction false} CountAcIsCardinality(cases: seq<CaseResult>)
    ensures CountAc(cases) == |Passing(cases)|
  {
    if cases != [] {
      var n := |cases| - 1;
      var before := Passing(cases[..n]);
      CountAcIsCardinality(cases[..n]);
      assert Passing(cases) == if cases[n].status == AC then before + {n} else before;
    }
  }

  /** `passed` counts the accepted test cases; the cases reported are a prefix, in order. */
  lemma PassedMeaning(j: Job, r: JudgeResult, log: seq<Event>)
    requires IsJudgement(j, r, log)
    ensures |r.cases| <= r.total && r.passed == |Passing(r.cases)|
    ensures forall i: nat :: i < |r.cases| ==> r.cases[i] == CaseOf(j, i) && r.cases[i].index == i
    ensures forall i: nat :: i < |r.cases| ==>
              r.cases[i].actualOutput == if r.cases[i].status == AC then "" else ProcessOf(j, i).output
  {
    var n: nat :| Judged(j, n, r, log);
    CountAcIsCardinality(r.cases);
  }

  /** A run that is cancelled or out of budget is an internal error, never the program's fault. */
  lemma StoppedRunsAreInternal(j: Job, r: JudgeResult, log: seq<Event>)
    requires IsJudgement(j, r, log)
    ensures r.cancelled || r.globalDeadlineHit ==> r.status == SYSERR
    ensures !(r.cancelled && r.globalDeadlineHit)
  {
    var n: nat :| Judged(j, n, r, log);
  }

  /** A case that ran over a clipped limit exhausts the budget. */
  lemma CaseTimeLimit(j: Job, n: nat, i: nat)
    requires i < n <= |j.task.testcases| && NoneAbortsBefore(j, n) && !ExhaustedDuringRuns(j, n)
    requires VerdictOf(j, i).status == TLE
    ensures ProcessOf(j, i).timedOut && !Capped(j, i)
  {
    TleMeaning(j, i);
    if Capped(j, i) {
      ClippedTleExhausts(j, n, i);
    }
  }

  lemma TleMeaning(j: Job, i: nat)
    requires i < |j.task.testcases| && VerdictOf(j, i).status == TLE
    ensures ProcessOf(j, i).timedOut && (VerdictOf(j, i).globalDeadlineHit <==> Capped(j, i))
    ensures Aborts(j, i) <==> Capped(j, i)
  {
  }

  lemma StartedLimit(j: Job, i: nat)
    requires Starts(j, i) && !Capped(j, i)
    ensures LimitOf(j, i) == ProblemLimit(j)
  {
  }

  /** An overall TLE says that some test case ran over the problem's own limit, and that no
      budget was clipped out of any case reported as TLE. */
  lemma TimeLimitIsTheProblems(j: Job, r: JudgeResult, log: seq<Event>)
    requires IsJudgement(j, r, log) && r.status == TLE
    ensures exists i: nat :: i < |r.cases| && r.cases[i].status == TLE
    ensures forall i: nat :: i < |r.cases| && r.cases[i].status == TLE ==>
              ProcessOf(j, i).timedOut && LimitOf(j, i) == ProblemLimit(j)
  {
    var n: nat :| Judged(j, n, r, log);
    assert RanTo(j, r);
    var k :| 0 <= k < |r.cases| && Statuses(r.cases)[k] == TLE;
    assert r.cases[k].status == TLE;
    forall i: nat | i < |r.cases| && r.cases[i].status == TLE
      ensures ProcessOf(j, i).timedOut && LimitOf(j, i) == ProblemLimit(j)
    {
      assert r.cases[i] == CaseOf(j, i);
      CaseTimeLimit(j, |r.cases|, i);
      StartedLimit(j, i);
    }
  }

  /** A reported case says TLE although its limit was clipped. */
  ghost predicate BlamedForBudget(j: Job, r: JudgeResult, i: nat) {
    i < |r.cases| && r.cases[i].status == TLE && Capped(j, i)
  }

  /** A case that ran over the clipped limit is still reported as TLE. It happens exactly when
      the budget ran out inside a case rather than between two, and that case is the last. */
  lemma ClippedTleIff(j: Job, r: JudgeResult, log: seq<Event>)
    requires IsJudgement(j, r, log)
    ensures (exists i: nat :: BlamedForBudget(j, r, i)) <==>
              r.globalDeadlineHit && r.cases != [] && r.cases[|r.cases| - 1].globalDeadlineHit
    ensures forall i: nat :: BlamedForBudget(j, r, i) ==> i == |r.cases| - 1 && r.status == SYSERR
  {
    var n: nat :| Judged(j, n, r, log);
    if r.cases != [] {
      var last := |r.cases| - 1;
      forall i: nat | BlamedForBudget(j, r, i)
        ensures i == last && r.globalDeadlineHit && r.cases[last].globalDeadlineHit && r.status == SYSERR
      {
        assert r.cases[i] == CaseOf(j, i);
        ClippedTleExhausts(j, |r.cases|, i);
      }
      assert r.cases[last] == CaseOf(j, last);
      LastHitIsClipped(j, last);
      assert r.cases[last].globalDeadlineHit ==> BlamedForBudget(j, r, last);
    }
  }

  /** Case `i` was stopped by its time limit, and that limit was what was left of the budget. */
  predicate StoppedByBudget(j: Job, i: nat) {
    var p := ProcessOf(j, i);
    Capped(j, i) && p.timedOut && !p.cancelled && !p.launchError && !p.memoryExceeded
  }

  /** The run comes to case `n`, which returns, and stops after it. */
  ghost predicate EndsAt(j: Job, n: nat) {
    n < |j.task.testcases| && RunLength(j, n + 1) && !BrokenAfter(j, n + 1)
  }

  lemma ClippedTleVerdict(j: Job, i: nat)
    requires i < |j.task.testcases|
    ensures VerdictOf(j, i).status == TLE && Capped(j, i) <==> StoppedByBudget(j, i)
    ensures StoppedByBudget(j, i) ==> Aborts(j, i)
  {
  }

  /** Which jobs this happens to: exactly those that are built and whose last case, of those they
      come to, is stopped by the budget. */
  lemma BlamedForBudgetIff(j: Job, r: JudgeResult, log: seq<Event>)
    requires IsJudgement(j, r, log)
    ensures forall i: nat :: BlamedForBudget(j, r, i) <==> i < |r.cases| && StoppedByBudget(j, i)
    ensures (exists i: nat :: BlamedForBudget(j, r, i)) <==>
              Built(j) && exists n: nat :: EndsAt(j, n) && StoppedByBudget(j, n)
  {
    forall i: nat
      ensures BlamedForBudget(j, r, i) <==> i < |r.cases| && StoppedByBudget(j, i)
    {
      BlamedIff(j, r, log, i);
    }
    if i: nat :| BlamedForBudget(j, r, i) {
      BlamedIsLast(j, r, log, i);
    }
    if n: nat :| Built(j) && EndsAt(j, n) && StoppedByBudget(j, n) {
      LastIsReported(j, r, log, n);
    }
  }

  lemma BlamedIsLast(j: Job, r: JudgeResult, log: seq<Event>, i: nat)
    requires IsJudgement(j, r, log) && BlamedForBudget(j, r, i)
    ensures Built(j) && EndsAt(j, i)
  {
    ClippedTleIff(j, r, log);
    var m: nat :| Judged(j, m, r, log);
    assert Built(j) && RanTo(j, r);
  }

  lemma LastIsReported(j: Job, r: JudgeResult, log: seq<Event>, n: nat)
    requires IsJudgement(j, r, log) && Built(j) && EndsAt(j, n)
    ensures n < |r.cases|
  {
    var m: nat :| Judged(j, m, r, log);
    RunLengthUnique(j, n + 1, m);
  }

  lemma BlamedIff(j: Job, r: JudgeResult, log: seq<Event>, i: nat)
    requires IsJudgement(j, r, log)
    ensures BlamedForBudget(j, r, i) <==> i < |r.cases| && StoppedByBudget(j, i)
  {
    var m: nat :| Judged(j, m, r, log);
    if i < |r.cases| {
      assert r.cases[i] == CaseOf(j, i);
      ClippedTleVerdict(j, i);
    }
  }

  lemma LastHitIsClipped(j: Job, i: nat)
    requires i < |j.task.testcases|
    ensures VerdictOf(j, i).globalDeadlineHit ==> VerdictOf(j, i).status == TLE && Capped(j, i)
  {
  }

  lemma ClippedTleExhausts(j: Job, n: nat, i: nat)
    requires i < n <= |j.task.testcases| && NoneAbortsBefore(j, n) && VerdictOf(j, i).status == TLE && Capped(j, i)
    ensures i == n - 1 && ExhaustedDuringRuns(j, n) && VerdictOf(j, i).globalDeadlineHit
  {
    TleMeaning(j, i);
  }

  /** It does happen: one case of a second under a budget of half a second. */
  lemma ClippedTleHappens() returns (j: Job, r: JudgeResult, log: seq<Event>)
    ensures IsJudgement(j, r, log) && BlamedForBudget(j, r, 0) && r.status == SYSERR
  {
    var built := ProcessResult(false, false, false, false, true, 0, 0, "", false);
    var stopped := ProcessResult(false, false, true, false, false, 0, 9, "", false);
    var world := World(0, false, true, true, Ungated, false, 0, (_: int) => built, false, true,
                       (_: nat) => false, (_: nat) => 0, (_: nat, _: int) => stopped, (_: nat) => false);
    j := Job(Task("c", [Testcase("", "")], 1000), Settings(10000, 60000, 500), world);
    assert Lowered("c") == "c";
    assert RemainingMs(DeadlineOf(j), 0) == 500 && LimitOf(j, 0) == 500 && ProblemLimit(j) == 1000;
    assert VerdictOf(j, 0) == Verdict(TLE, true, true);
    assert AbortedAfter(j, 1);
    r := JudgeResult(SYSERR, true, [CaseResult(0, TLE, true, "")], 1, 0, true, false);
    log := LogOf(j, 1);
    assert CountAc(r.cases) == 0;
    assert Judged(j, 1, r, log);
  }

  /** The clock was read before the budget of the run had passed since its start, and the limit
      ends less than a millisecond after that. It is not shorter than it has to be: it is one of
      the configured limits, the largest representable one, or reaches the end of the budget. */
  predicate FitsBudget(j: Job, at: int, limit: int, configured: set<int>) {
    var end := j.world.start + j.settings.globalTimeLimitMs * 1_000_000;
    && at < end && at + limit * 1_000_000 < end + 1_000_000
    && (forall c :: c in configured ==> limit <= c)
    && (limit in configured || limit == 0x7fff_ffff || end <= at + limit * 1_000_000)
  }

  /** A process is started at its reading of the clock with a limit that fits the budget; the limit
      is positive, for the compiler if the configured one is. */
  predicate WithinBudget(j: Job, e: Event) {
    match e
    case CompileStarted(at, limit) =>
      && at == j.world.compileClock && FitsBudget(j, at, limit, {j.settings.compileTimeLimitMs})
      && (j.settings.compileTimeLimitMs > 0 ==> limit > 0)
    case RunStarted(i, at, limit) =>
      && at == j.world.clock(i) && limit > 0
      && FitsBudget(j, at, limit, {j.task.timeLimitMs, j.settings.maxTimeLimitMs})
    case _ => true
  }

  lemma RunsWithinBudget(j: Job, n: nat)
    requires AllStart(j, n)
    ensures |RunsUpTo(j, n)| == n
    ensures forall k :: 0 <= k < n ==> RunsUpTo(j, n)[k] == RunStarted(k, j.world.clock(k), LimitOf(j, k))
    ensures forall k :: 0 <= k < n ==> WithinBudget(j, RunsUpTo(j, n)[k])
  {
    if n > 0 {
      RunsWithinBudget(j, n - 1);
      assert Starts(j, n - 1);
      CaseFitsBudget(j, n - 1);
    }
  }

  lemma CaseFitsBudget(j: Job, i: nat)
    requires Starts(j, i)
    ensures WithinBudget(j, RunStarted(i, j.world.clock(i), LimitOf(j, i)))
  {
    RemainingMsIsTight(DeadlineOf(j), j.world.clock(i));
  }

  /** When a process may be started, on the readings of the clock: the compiler and every test case
      exactly before the budget has passed since the start. */
  lemma StartsOnTheClock(j: Job, i: nat)
    ensures
      var end := j.world.start + j.settings.globalTimeLimitMs * 1_000_000;
      && (Permitted(j) ==> (Compiles(j) <==> j.world.compileClock < end))
      && (Starts(j, i) <==> !j.world.token(i) && j.world.clock(i) < end
                            && j.task.timeLimitMs > 0 && j.settings.maxTimeLimitMs > 0)
  {
    RemainingMsIsTight(DeadlineOf(j), j.world.clock(i));
  }

  lemma PrologueWithinBudget(j: Job)
    ensures forall k :: 0 <= k < |Prologue(j)| ==> WithinBudget(j, Prologue(j)[k])
  {
    if Compiles(j) {
      RemainingMsIsTight(DeadlineOf(j), j.world.compileClock);
      assert WithinBudget(j, CompileStarted(j.world.compileClock, CompileLimit(j)));
    }
  }

  /** The log of a judgement: its prologue and the cases started, which are the reported ones
      unless the executor threw out of the last. */
  lemma JudgementParts(j: Job, r: JudgeResult, log: seq<Event>) returns (started: nat)
    requires IsJudgement(j, r, log)
    ensures log == Prologue(j) + RunsUpTo(j, started)
    ensures AllStart(j, started)
    ensures started == |r.cases| || LastThrew(j, r, started)
  {
    var n: nat :| Judged(j, n, r, log);
    started := if Built(j) && BrokenAfter(j, n) then n + 1 else n;
    if Built(j) {
      RanStarts(j, n);
    }
    LogParts(j, n, r, log, started);
  }

  lemma LogParts(j: Job, n: nat, r: JudgeResult, log: seq<Event>, started: nat)
    requires Judged(j, n, r, log) && started == if Built(j) && BrokenAfter(j, n) then n + 1 else n
    ensures log == Prologue(j) + RunsUpTo(j, started)
    ensures started == |r.cases| || LastThrew(j, r, started)
  {
  }

  lemma RanStarts(j: Job, n: nat)
    requires RunLength(j, n)
    ensures AllStart(j, if BrokenAfter(j, n) then n + 1 else n)
  {
  }

  predicate AllStart(j: Job, n: nat) {
    forall i: nat :: i < n ==> Starts(j, i)
  }

  ghost predicate LastThrew(j: Job, r: JudgeResult, started: nat) {
    started > 0 && Throws(j, started - 1) && r == InternalError(j)
  }

  lemma AllWithinBudget(j: Job, a: seq<Event>, b: seq<Event>)
    requires forall k :: 0 <= k < |a| ==> WithinBudget(j, a[k])
    requires forall k :: 0 <= k < |b| ==> WithinBudget(j, b[k])
    ensures forall k :: 0 <= k < |a + b| ==> WithinBudget(j, (a + b)[k])
  {
  }

  lemma StartedWithinBudget(j: Job, r: JudgeResult, log: seq<Event>)
    requires IsJudgement(j, r, log)
    ensures forall k :: 0 <= k < |log| ==> WithinBudget(j, log[k])
  {
    var started := JudgementParts(j, r, log);
    RunsWithinBudget(j, started);
    PrologueWithinBudget(j);
    AllWithinBudget(j, Prologue(j), RunsUpTo(j, started));
  }

  /** Every process is started once: the compiler at most once and first, then the first cases
      in order. */
  ghost predicate StartsOnce(log: seq<Event>, cases: nat) {
    && cases <= |log| <= cases + 3
    && (forall k :: 0 <= k < |log| - cases ==> !log[k].RunStarted?)
    && (forall k, l :: 0 <= k < l < |log| && log[k].CompileStarted? ==> !log[l].CompileStarted?)
    && (forall k :: |log| - cases <= k < |log| ==> log[k].RunStarted? && log[k].index == k - (|log| - cases))
  }

  lemma RunsStartOnce(prologue: seq<Event>, runs: seq<Event>)
    requires StartsOnce(prologue, 0)
    requires forall k: nat :: k < |runs| ==> runs[k].RunStarted? && runs[k].index == k
    ensures StartsOnce(prologue + runs, |runs|)
  {
    var log := prologue + runs;
    forall k | |prologue| <= k < |log|
      ensures log[k].RunStarted? && log[k].index == k - |prologue|
    {
      assert log[k] == runs[k - |prologue|];
    }
  }

  lemma StartedOnce(j: Job, r: JudgeResult, log: seq<Event>) returns (started: nat)
    requires IsJudgement(j, r, log)
    ensures StartsOnce(log, started) && (started == |r.cases| || LastThrew(j, r, started))
  {
    started := JudgementParts(j, r, log);
    RunsWithinBudget(j, started);
    PrologueDiscipline(j);
    RunsStartOnce(Prologue(j), RunsUpTo(j, started));
  }

  /** A permit is taken at most once, given back exactly once if it was taken, and then the
      compiler has ended and no test case has started. */
  ghost predicate PermitDiscipline(log: seq<Event>) {
    && (forall k, l :: 0 <= k < l < |log| && log[k].GateAcquired? ==> !log[l].GateAcquired?)
    && (forall k, l :: 0 <= k < l < |log| && log[k].GateReleased? ==> log[l].RunStarted?)
    && (forall k, l :: 0 <= k < l < |log| && log[k].RunStarted? ==> log[l].RunStarted?)
    && (GateAcquired in log <==> GateReleased in log)
  }

  lemma RunsKeepDiscipline(prologue: seq<Event>, runs: seq<Event>)
    requires PermitDiscipline(prologue)
    requires forall k :: 0 <= k < |prologue| ==> !prologue[k].RunStarted?
    requires forall k :: 0 <= k < |runs| ==> runs[k].RunStarted?
    ensures PermitDiscipline(prologue + runs)
    ensures GateAcquired in prologue + runs <==> GateAcquired in prologue
  {
  }

  /** On every way out of the run, also when the executor throws. */
  lemma PermitReleasedOnce(j: Job, r: JudgeResult, log: seq<Event>)
    requires IsJudgement(j, r, log)
    ensures PermitDiscipline(log)
    ensures GateAcquired in log <==> Permitted(j) && j.world.gate.Admitted?
  {
    var started := JudgementParts(j, r, log);
    RunsWithinBudget(j, started);
    PrologueDiscipline(j);
    RunsKeepDiscipline(Prologue(j), RunsUpTo(j, started));
  }

  lemma PrologueDiscipline(j: Job)
    ensures PermitDiscipline(Prologue(j)) && StartsOnce(Prologue(j), 0)
    ensures GateAcquired in Prologue(j) <==> Permitted(j) && j.world.gate.Admitted?
  {
    var log := Prologue(j);
    if Permitted(j) && j.world.gate.Admitted? {
      assert log[0] == GateAcquired && log[|log| - 1] == GateReleased;
    }
  }

  /** A run cancelled before it begins touches nothing and reports an internal error. */
  lemma CancelledStartsNothing(j: Job, r: JudgeResult, log: seq<Event>)
    requires IsJudgement(j, r, log) && j.world.cancelledAtStart
    ensures log == [] && r.status == SYSERR && r.cases == [] && (r.cancelled <==> InputOk(j))
  {
    var n: nat :| Judged(j, n, r, log);
  }
}
