/** What the steps of the lifecycle do to the tables, row by row and field by field: what is
    written, and that nothing else is. */
module Effects {
  import opened JudgeStatus
  import opened Options
  import opened Tables
  import opened Lifecycle

  // ------------------------------------------------------------------------ acceptance

  /** The steps that leave every in-flight row of before as it was. */
  predicate LeavesRows(step: Step) {
    || step.Register? || step.LoseUser? || step.CreateProblem? || step.UpdateProblem? || step.Persist?
    || step.Enqueue? || step.EnqueueDirect? || step.BeginRejudge? || step.FinishRejudge? || step.Crash?
  }

  lemma LeftRows(s: System, step: Step)
    requires Enabled(s, step) && LeavesRows(step)
    ensures
      var rows := Apply(s, step).db.inFlight;
      forall t :: t in s.db.inFlight && !(step.Persist? && step.task == t) ==> t in rows && rows[t] == s.db.inFlight[t]
  {
    match step
    case CreateProblem(data, samples) =>
      SamplesLeaveRest(s.db.(problems := s.db.problems[s.db.nextProblem := data], nextProblem := s.db.nextProblem + 1),
                       s.db.nextProblem, samples);
    case UpdateProblem(p, data, samples) =>
      if samples.Some? {
        SamplesLeaveRest(DropSamples(s.db.(problems := s.db.problems[p := data]), p), p, samples.value);
      }
    case _ =>
  }

  /** An unsettled row stays unsettled or is settled, whatever happens, unless it is discarded. */
  ghost predicate Alive(s: System, t: TaskId) {
    (t in s.db.inFlight && !s.db.inFlight[t].state.Interrupted?) || t in s.settled
  }

  lemma SettleKeepsAlive(s: System, job: Job, record: Submission, t: TaskId)
    requires Inv(s) && job in s.held && t in s.db.inFlight && !s.db.inFlight[t].state.Interrupted?
    requires record.entry.problem == job.entry.problem
    ensures Alive(AfterSettle(s, job, record), t)
  {
    if job.task == Some(t) {
      HeldEntryMatches(s, job, t);
    }
  }

  lemma RemovalKeepsAlive(s: System, problem: nat, t: TaskId)
    requires t in s.db.inFlight && !s.db.inFlight[t].state.Interrupted?
    ensures Alive(Apply(s, RemoveProblem(problem)), t)
  {
    assert s.db.inFlight[t].entry.problem == problem ==> HasUnsettled(s.db, problem);
  }

  lemma MissingKeepsAlive(s: System, job: Job, t: TaskId)
    requires Inv(s) && Enabled(s, FindProblemMissing(job))
    requires t in s.db.inFlight && !s.db.inFlight[t].state.Interrupted?
    ensures Alive(Apply(s, FindProblemMissing(job)), t)
  {
    if job.task == Some(t) {
      HeldEntryMatches(s, job, t);
    }
  }

  lemma HeldEntryMatches(s: System, job: Job, t: TaskId)
    requires Inv(s) && job in s.held && job.task == Some(t) && t in s.db.inFlight
    ensures job.entry == s.db.inFlight[t].entry && job.entry.problem in s.db.problems
  {
    assert t in s.issued && s.db.inFlight[t].entry == s.issued[t];
  }

  lemma StepKeepsAlive(s: System, step: Step, t: TaskId)
    requires Inv(s) && Enabled(s, step) && Alive(s, t) && t in s.issued && step != Discard(t)
    ensures Alive(Apply(s, step), t)
  {
    if t in s.settled {
      StepRemembers(s, step);
    } else {
      match step
      case Settle(job, verdict, now) => SettleKeepsAlive(s, job, Submission(Stamped(job.entry, now), verdict), t);
      case RemoveProblem(p) => RemovalKeepsAlive(s, p, t);
      case FindProblemMissing(job) => MissingKeepsAlive(s, job, t);
      case _ => OtherKeepsAlive(s, step, t);
    }
  }

  lemma OtherKeepsAlive(s: System, step: Step, t: TaskId)
    requires Enabled(s, step) && !step.Settle? && !step.RemoveProblem? && !step.FindProblemMissing?
    requires t in s.db.inFlight && !s.db.inFlight[t].state.Interrupted? && t in s.issued && step != Discard(t)
    ensures Alive(Apply(s, step), t)
  {
    match step
    case Discard(_) =>
    case ClaimRow(_) =>
    case LoseClaim(_) =>
    case ResetClaims =>
    case _ => LeftRows(s, step);
  }

  lemma {:induction false} RunKeepsAlive(s: System, steps: seq<Step>, s': System, t: TaskId)
    requires Inv(s) && IsRun(s, steps, s') && Alive(s, t) && t in s.issued && Discard(t) !in steps
    ensures Alive(s', t)
    decreases |steps|
  {
    if steps != [] {
      assert steps[0] in steps;
      StepKeepsAlive(s, steps[0], t);
      StepRemembers(s, steps[0]);
      StepKeeps(s, steps[0]);
      RunKeepsAlive(Apply(s, steps[0]), steps[1..], s', t);
    }
  }

  /** An accepted task is never out of reach: in every run after its acceptance, with crashes,
      restarts, lost claims and attempts to delete its problem, its row waits to be recovered or
      it is settled, unless the handler discards it. */
  lemma AcceptedStaysRecoverable(s: System, task: TaskId, entry: Entry, now: string, steps: seq<Step>, s': System)
    requires Inv(s) && Enabled(s, Persist(task, entry, now))
    requires IsRun(Apply(s, Persist(task, entry, now)), steps, s') && Discard(task) !in steps
    ensures (task in s'.db.inFlight && !s'.db.inFlight[task].state.Interrupted?) || task in s'.settled
  {
    StepKeeps(s, Persist(task, entry, now));
    RunKeepsAlive(Apply(s, Persist(task, entry, now)), steps, s', task);
  }

  /** What is accepted is what was handed in, at the time it was handed in. */
  lemma AcceptedAsSubmitted(s: System, task: TaskId, entry: Entry, now: string)
    requires Enabled(s, Persist(task, entry, now))
    ensures
      var s' := Apply(s, Persist(task, entry, now));
      var time := if entry.submittedAt == "" then now else entry.submittedAt;
      && task in s'.issued
      && s'.issued[task] == Entry(entry.user, entry.problem, entry.language, entry.source, time)
      && task in s'.db.inFlight && s'.db.inFlight[task].state == Pending
  {
  }

  // --------------------------------------------------------------------------- rejudge

  /** A concluded rejudge stores its verdict in its record and touches no other record. */
  lemma RejudgeStores(s: System, id: nat, original: Entry, verdict: Status, after: Db)
    requires Enabled(s, FinishRejudge(id, original, verdict, after))
    ensures id in after.submissions && after.submissions[id] == Submission(s.db.submissions[id].entry, verdict)
    ensures after.submissions.Keys == s.db.submissions.Keys
    ensures forall other :: other in s.db.submissions && other != id ==>
              after.submissions[other] == s.db.submissions[other]
  {
  }

  // ------------------------------------------------------------- interruption, deletion

  /** The row of `t` is kept with its entry and will not be recovered; all other rows stay. */
  ghost predicate InterruptsOnly(db: Db, db': Db, t: TaskId) {
    && db' == db.(inFlight := db'.inFlight) && db'.inFlight.Keys == db.inFlight.Keys
    && (t in db.inFlight ==> db'.inFlight[t] == InFlightRow(db.inFlight[t].id, db.inFlight[t].entry, Interrupted))
    && (forall other :: other in db.inFlight && other != t ==> db'.inFlight[other] == db.inFlight[other])
  }

  lemma DiscardInterrupts(s: System, t: TaskId)
    requires t in s.issued
    ensures InterruptsOnly(s.db, Apply(s, Discard(t)).db, t) && t !in Unsettled(Apply(s, Discard(t)).db)
  {
  }

  /** A task whose problem is missing is kept as interrupted, whether the worker finds out before
      judging or in the settlement; no submission is stored. */
  lemma MissingProblemInterrupts(s: System, job: Job, t: TaskId, verdict: Status, now: string)
    requires job in s.held && job.task == Some(t) && job.entry.problem !in s.db.problems && now != ""
    ensures InterruptsOnly(s.db, Apply(s, FindProblemMissing(job)).db, t)
    ensures InterruptsOnly(s.db, Apply(s, Settle(job, verdict, now)).db, t)
  {
  }

  /** A problem without submissions and unsettled tasks is gone with everything that names it,
      and nothing else is; any other problem stays untouched. */
  lemma RemovalIsExact(db: Db, problem: nat)
    ensures
      var (db', kind) := RemoveTransaction(db, problem);
      var removable :=
        && problem in db.problems
        && (forall id :: id in db.submissions ==> db.submissions[id].entry.problem != problem)
        && (forall t :: t in db.inFlight && db.inFlight[t].entry.problem == problem ==>
              db.inFlight[t].state == Interrupted);
      if removable then kind == Deleted && RemovesOnly(db, db', problem)
      else db' == db && kind == if problem in db.problems then HasHistory else NotFound
  {
  }

  ghost predicate RemovesOnly(db: Db, db': Db, problem: nat) {
    && (forall p :: p in db'.problems <==> p in db.problems && p != problem)
    && (forall p :: p in db'.problems ==> db'.problems[p] == db.problems[p])
    && (forall t :: t in db'.testcases <==> t in db.testcases && db.testcases[t].problem != problem)
    && (forall t :: t in db'.testcases ==> db'.testcases[t] == db.testcases[t])
    && (forall k :: k in db'.statuses <==> k in db.statuses && k.1 != problem)
    && (forall k :: k in db'.statuses ==> db'.statuses[k] == db.statuses[k])
    && (forall t :: t in db'.inFlight <==> t in db.inFlight && db.inFlight[t].entry.problem != problem)
    && (forall t :: t in db'.inFlight ==> db'.inFlight[t] == db.inFlight[t])
    && db'.submissions == db.submissions && db'.users == db.users
  }

  // ------------------------------------------------------------- users, problems, crash

  lemma {:induction false} SamplesAdded(db: Db, problem: nat, samples: nat)
    requires forall t :: t in db.testcases ==> t < db.nextTestcase
    ensures
      var db' := WithSamples(db, problem, samples);
      && (forall t :: t in db'.testcases <==> t in db.testcases || db.nextTestcase <= t < db.nextTestcase + samples)
      && (forall t :: t in db.testcases ==> db'.testcases[t] == db.testcases[t])
      && (forall t :: db.nextTestcase <= t < db.nextTestcase + samples ==> db'.testcases[t] == Testcase(problem, true))
      && db' == db.(testcases := db'.testcases, nextTestcase := db.nextTestcase + samples)
    decreases samples
  {
    if samples > 0 {
      SamplesAdded(db.(testcases := db.testcases[db.nextTestcase := Testcase(problem, true)],
                       nextTestcase := db.nextTestcase + 1), problem, samples - 1);
    }
  }

  /** A registration adds the user, and losing it takes the user away again. */
  lemma RegistrationEffect(s: System, createdAt: string)
    requires Inv(s)
    ensures
      var s' := Apply(s, Register(createdAt));
      var user := s.db.nextUser;
      && user !in s.db.users && s'.db == s.db.(users := s.db.users[user := User(createdAt)], nextUser := user + 1)
      && Unregistered(s'.db, user) == s.db
  {
    assert s.db.users[s.db.nextUser := User(createdAt)] - {s.db.nextUser} == s.db.users;
  }

  /** Creating a problem adds it under a new key with its samples as public test cases. */
  lemma CreationEffect(s: System, data: Problem, samples: nat)
    requires Inv(s)
    ensures
      var s' := Apply(s, CreateProblem(data, samples));
      var p := s.db.nextProblem;
      && p !in s.db.problems && s'.db.problems == s.db.problems[p := data]
      && s'.db == s.db.(problems := s'.db.problems, testcases := s'.db.testcases, nextProblem := p + 1,
                        nextTestcase := s.db.nextTestcase + samples)
      && (forall t :: t in s.db.testcases ==> t in s'.db.testcases && s'.db.testcases[t] == s.db.testcases[t])
      && (forall t :: t in s'.db.testcases && t !in s.db.testcases ==> s'.db.testcases[t] == Testcase(p, true))
  {
    SamplesAdded(s.db.(problems := s.db.problems[s.db.nextProblem := data], nextProblem := s.db.nextProblem + 1),
                 s.db.nextProblem, samples);
  }

  /** Updating a problem with new samples replaces its public test cases and keeps the hidden
      ones and those of every other problem. */
  lemma UpdateEffect(s: System, p: nat, data: Problem, samples: Option<nat>)
    requires Inv(s) && p in s.db.problems
    ensures
      var cases, db' := s.db.testcases, Apply(s, UpdateProblem(p, data, samples)).db;
      && db'.problems == s.db.problems[p := data]
      && (samples.None? ==> db'.testcases == cases)
      && (samples.Some? ==>
            && (forall t :: t in cases ==>
                  (t in db'.testcases <==> cases[t].problem != p || !cases[t].isSample))
            && (forall t :: t in cases && t in db'.testcases ==> db'.testcases[t] == cases[t])
            && (forall t :: t !in cases ==>
                  (t in db'.testcases <==> s.db.nextTestcase <= t < s.db.nextTestcase + samples.value))
            && (forall t :: t in db'.testcases && t !in cases ==> db'.testcases[t] == Testcase(p, true)))
  {
    if samples.Some? {
      SamplesAdded(DropSamples(s.db.(problems := s.db.problems[p := data]), p), p, samples.value);
    }
  }

  /** A crash forgets what is in memory and nothing else; a lost claim is a pending row again. */
  lemma LossEffects(s: System, t: TaskId)
    ensures Apply(s, Crash) == s.(held := {}, rejudging := {})
    ensures
      t in s.db.inFlight && s.db.inFlight[t].state == Claimed ==>
        var row := s.db.inFlight[t];
        var pending := s.db.inFlight[t := InFlightRow(row.id, row.entry, Pending)];
        Apply(s, LoseClaim(t)) == s.(db := s.db.(inFlight := pending))
  {
  }
}
