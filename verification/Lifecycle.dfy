/** The life of a submission over every run of the server: accepted, persisted in flight,
    enqueued any number of times, judged, settled once, across crashes, restarts, lost
    claims, rejudges and deleted problems. */
module Lifecycle {
  import opened JudgeStatus
  import opened Options
  import opened Tables
  import opened Statistics

  /** What a queue slot or a worker holds for a submission. */
  datatype Job = Job(task: Option<TaskId>, entry: Entry)

  /** `db` survives a crash; `held` and `rejudging` do not. The other fields are history:
      every task id ever persisted with the entry accepted for it, the submission row that
      settled it, the ids whose row went with its deleted problem, and the submission rows
      that never had an in-flight row. */
  datatype System = System(
    db: Db,
    held: set<Job>,
    rejudging: set<(nat, Entry)>,
    issued: map<TaskId, Entry>,
    settled: map<TaskId, nat>,
    dropped: set<TaskId>,
    direct: set<nat>)

  datatype Step =
    | Register(createdAt: string)
    | LoseUser(user: nat)
    | CreateProblem(data: Problem, samples: nat)
    | UpdateProblem(problem: nat, data: Problem, newSamples: Option<nat>)
    | RemoveProblem(problem: nat)
    | Persist(task: TaskId, entry: Entry, now: string)
    | Enqueue(task: TaskId)
    | EnqueueDirect(entry: Entry)
    | FindProblemMissing(job: Job)
    | Settle(job: Job, verdict: Status, now: string)
    | Discard(task: TaskId)
    | ClaimRow(row: nat)
    | LoseClaim(task: TaskId)
    | ResetClaims
    | BeginRejudge(id: nat)
    | FinishRejudge(id: nat, original: Entry, verdict: Status, after: Db)
    | Crash

  /** When a step can happen. Ids are fresh, clocks yield a non-empty text, users are
      authenticated; a queue may receive any issued task at any time. */
  ghost predicate Enabled(s: System, step: Step) {
    match step
    case Register(_) => true
    case LoseUser(user) =>
      && user in s.db.users && Unreferenced(s.db, user)
      && forall job :: job in s.held && job.task.None? ==> job.entry.user != user
    case CreateProblem(_, _) => true
    case UpdateProblem(p, _, _) => p in s.db.problems
    case RemoveProblem(_) => true
    case Persist(task, entry, now) =>
      task !in s.issued && entry.user in s.db.users && entry.problem in s.db.problems && now != ""
    case Enqueue(task) => task in s.issued
    case EnqueueDirect(entry) => entry.user in s.db.users
    case FindProblemMissing(job) => job in s.held && job.entry.problem !in s.db.problems
    case Settle(job, _, now) => job in s.held && now != ""
    case Discard(task) => task in s.issued
    case ClaimRow(_) => true
    case LoseClaim(task) => task in s.db.inFlight && s.db.inFlight[task].state.Claimed?
    case ResetClaims => true
    case BeginRejudge(id) => id in s.db.submissions
    case FinishRejudge(id, original, verdict, after) =>
      && (id, original) in s.rejudging
      && verdict != SYSERR
      && id in s.db.submissions
      && IsRecomputed(StatusReplaced(s.db, id, verdict), original.user, original.problem, after)
    case Crash => true
  }

  ghost function Apply(s: System, step: Step): System
    requires Enabled(s, step)
  {
    match step
    case Register(createdAt) => s.(db := Registered(s.db, createdAt))
    case LoseUser(user) => s.(db := Unregistered(s.db, user))
    case CreateProblem(data, samples) => s.(db := Created(s.db, data, samples))
    case UpdateProblem(p, data, samples) => s.(db := Updated(s.db, p, data, samples))
    case RemoveProblem(p) =>
      var (db', _) := RemoveTransaction(s.db, p);
      s.(db := db', dropped := s.dropped + (s.db.inFlight.Keys - db'.inFlight.Keys))
    case Persist(task, entry, now) =>
      s.(db := Persisted(s.db, task, Stamped(entry, now)), issued := s.issued[task := Stamped(entry, now)])
    case Enqueue(task) => s.(held := s.held + {Job(Some(task), s.issued[task])})
    case EnqueueDirect(entry) => s.(held := s.held + {Job(None, entry)})
    case FindProblemMissing(job) =>
      if job.task.Some? then s.(db := MarkedInterrupted(s.db, job.task.value)) else s
    case Settle(job, verdict, now) => AfterSettle(s, job, Submission(Stamped(job.entry, now), verdict))
    case Discard(task) => s.(db := MarkedInterrupted(s.db, task))
    case ClaimRow(row) => s.(db := ClaimedRow(s.db, row))
    case LoseClaim(task) => s.(db := WithState(s.db, task, Pending))
    case ResetClaims => s.(db := ClaimsReset(s.db))
    case BeginRejudge(id) => s.(rejudging := s.rejudging + {(id, s.db.submissions[id].entry)})
    case FinishRejudge(_, _, _, after) => s.(db := after)
    case Crash => s.(held := {}, rejudging := {})
  }

  function AfterSettle(s: System, job: Job, record: Submission): System {
    var (db', kind) := SubmitTransaction(s.db, job.task, record);
    if kind != Stored then s.(db := db')
    else if job.task.None? then s.(db := db', direct := s.direct + {s.db.nextSubmission})
    else s.(db := db', settled := s.settled[job.task.value := s.db.nextSubmission])
  }

  // ------------------------------------------------------------------------ invariant

  /** Foreign keys: every row that names a problem or a user names an existing one. */
  ghost predicate Referential(db: Db) {
    && (forall t :: t in db.testcases ==> db.testcases[t].problem in db.problems)
    && (forall id :: id in db.submissions ==> db.submissions[id].entry.problem in db.problems)
    && (forall id :: id in db.submissions ==> db.submissions[id].entry.user in db.users)
    && (forall k :: k in db.statuses ==> k.1 in db.problems && k.0 in db.users)
    && (forall t :: t in db.inFlight ==> db.inFlight[t].entry.problem in db.problems)
    && (forall t :: t in db.inFlight ==> db.inFlight[t].entry.user in db.users)
  }

  ghost predicate DbValid(db: Db) {
    KeysFresh(db) && TimesPresent(db) && Referential(db) && Consistent(db)
  }

  /** Every issued id is one in-flight row, one settled submission, or one dropped row. */
  ghost predicate Accounted(s: System) {
    && s.issued.Keys == s.db.inFlight.Keys + s.settled.Keys + s.dropped
    && s.db.inFlight.Keys !! s.settled.Keys
    && s.db.inFlight.Keys !! s.dropped
    && s.settled.Keys !! s.dropped
  }

  ghost predicate Credited(settled: map<TaskId, nat>, id: nat) {
    exists t :: t in settled && settled[t] == id
  }

  /** Nothing of what was accepted is altered on the way, and no row is credited twice. */
  ghost predicate Faithful(s: System) {
    && (forall t :: t in s.db.inFlight && t in s.issued ==> s.db.inFlight[t].entry == s.issued[t])
    && (forall t :: t in s.settled && t in s.issued ==>
          s.settled[t] in s.db.submissions && s.db.submissions[s.settled[t]].entry == s.issued[t])
    && (forall t, t' :: t in s.settled && t' in s.settled && s.settled[t] == s.settled[t'] ==> t == t')
    && (forall t :: t in s.settled ==> s.settled[t] !in s.direct)
    && (forall id :: id in s.db.submissions ==> id in s.direct || Credited(s.settled, id))
    && s.direct <= s.db.submissions.Keys
  }

  ghost predicate Tracked(s: System) {
    && (forall t :: t in s.issued ==> s.issued[t].submittedAt != "")
    && (forall job :: job in s.held ==>
          if job.task.Some? then job.task.value in s.issued && job.entry == s.issued[job.task.value]
          else job.entry.user in s.db.users)
    && (forall r :: r in s.rejudging ==> r.0 in s.db.submissions && s.db.submissions[r.0].entry == r.1)
  }

  ghost predicate History(s: System) {
    Accounted(s) && Faithful(s) && Tracked(s)
  }

  ghost predicate Inv(s: System) {
    DbValid(s.db) && History(s)
  }

  /** A server starting on any valid database, whatever earlier processes left in it. */
  ghost predicate Init(s: System) {
    && DbValid(s.db)
    && s.held == {} && s.rejudging == {} && s.settled == map[] && s.dropped == {}
    && s.issued == (map t | t in s.db.inFlight :: s.db.inFlight[t].entry)
    && s.direct == s.db.submissions.Keys
  }

  lemma InitHolds(s: System)
    requires Init(s)
    ensures Inv(s)
  {
  }

  // ------------------------------------------------------------- each step keeps it

  lemma {:induction false} WithSamplesValid(db: Db, problem: nat, samples: nat)
    requires DbValid(db) && problem in db.problems
    ensures DbValid(WithSamples(db, problem, samples))
    ensures
      var db' := WithSamples(db, problem, samples);
      db' == db.(testcases := db'.testcases, nextTestcase := db'.nextTestcase)
    decreases samples
  {
    if samples > 0 {
      var next := db.(testcases := db.testcases[db.nextTestcase := Testcase(problem, true)],
                      nextTestcase := db.nextTestcase + 1);
      UntouchedConsistent(db, next);
      WithSamplesValid(next, problem, samples - 1);
    }
  }

  lemma SettledValid(db: Db, task: Option<TaskId>, record: Submission)
    requires DbValid(db)
    requires record.entry.submittedAt != "" && record.entry.problem in db.problems && record.entry.user in db.users
    ensures DbValid(Settled(db, task, record))
  {
    SettledConsistent(db, task, record);
  }

  lemma RemovedValid(db: Db, problem: nat)
    requires DbValid(db) && !HasSubmissions(db, problem)
    ensures DbValid(Removed(db, problem))
  {
    RemovedConsistent(db, problem);
  }

  lemma RejudgedValid(db: Db, id: nat, status: Status, after: Db)
    requires DbValid(db) && id in db.submissions
    requires
      var e := db.submissions[id].entry;
      IsRecomputed(StatusReplaced(db, id, status), e.user, e.problem, after)
    ensures DbValid(after)
  {
    RejudgedConsistent(db, id, status, after);
  }

  /** A change of row states only: same rows, same entries. */
  ghost predicate OnlyStates(db: Db, db': Db) {
    && db' == db.(inFlight := db'.inFlight)
    && db'.inFlight.Keys == db.inFlight.Keys
    && (forall t :: t in db.inFlight ==> db'.inFlight[t] == db.inFlight[t].(state := db'.inFlight[t].state))
  }

  lemma StatesKeep(s: System, db': Db)
    requires Inv(s) && OnlyStates(s.db, db')
    ensures Inv(s.(db := db'))
  {
    UntouchedConsistent(s.db, db');
  }

  /** A change of problems, test cases and users that drops no user. */
  lemma CatalogueKeeps(s: System, db': Db)
    requires Inv(s) && DbValid(db')
    requires db'.submissions == s.db.submissions && db'.inFlight == s.db.inFlight
    requires s.db.users.Keys <= db'.users.Keys
    ensures Inv(s.(db := db'))
  {
  }

  lemma StoredTaskHistory(s: System, task: TaskId, record: Submission, db': Db, s': System)
    requires History(s) && task in s.db.inFlight && record.entry == s.issued[task]
    requires forall id :: id in s.db.submissions ==> id < s.db.nextSubmission
    requires db'.inFlight == s.db.inFlight - {task}
    requires db'.submissions == s.db.submissions[s.db.nextSubmission := record]
    requires db'.users == s.db.users
    requires s' == s.(db := db', settled := s.settled[task := s.db.nextSubmission])
    ensures History(s')
  {
    assert s'.db.inFlight.Keys == s.db.inFlight.Keys - {task};
    assert s'.settled.Keys == s.settled.Keys + {task};
    assert Accounted(s');
    StoredTaskFaithful(s, task, record, s');
  }

  lemma StoredTaskFaithful(s: System, task: TaskId, record: Submission, s': System)
    requires Faithful(s) && task in s.issued && task !in s.settled && record.entry == s.issued[task]
    requires forall id :: id in s.db.submissions ==> id < s.db.nextSubmission
    requires forall t :: t in s.settled ==> t in s.issued
    requires s'.db.inFlight == s.db.inFlight - {task}
    requires s'.db.submissions == s.db.submissions[s.db.nextSubmission := record]
    requires s' == s.(db := s'.db, settled := s.settled[task := s.db.nextSubmission])
    ensures Faithful(s')
  {
    var id := s.db.nextSubmission;
    forall i | i in s'.db.submissions
      ensures i in s'.direct || Credited(s'.settled, i)
    {
      if i == id {
        assert s'.settled[task] == id;
      } else if i !in s.direct {
        var t :| t in s.settled && s.settled[t] == i;
        assert s'.settled[t] == i;
      }
    }
  }

  lemma StoredTaskKeeps(s: System, job: Job, record: Submission)
    requires Inv(s) && job in s.held && job.task.Some? && record.entry == job.entry
    requires SubmitTransaction(s.db, job.task, record).1 == Stored
    ensures Inv(AfterSettle(s, job, record))
  {
    assert s.db.inFlight[job.task.value].entry == record.entry;
    SettledValid(s.db, job.task, record);
    StoredTaskHistory(s, job.task.value, record, Settled(s.db, job.task, record), AfterSettle(s, job, record));
  }

  lemma StoredDirectHistory(s: System, record: Submission, db': Db)
    requires History(s)
    requires forall id :: id in s.db.submissions ==> id < s.db.nextSubmission
    requires db'.submissions == s.db.submissions[s.db.nextSubmission := record]
    requires db'.inFlight == s.db.inFlight && db'.users == s.db.users
    ensures History(s.(db := db', direct := s.direct + {s.db.nextSubmission}))
  {
    assert s.db.nextSubmission !in s.db.submissions;
    assert forall t :: t in s.settled ==> t in s.issued.Keys;
  }

  lemma StoredDirectKeeps(s: System, job: Job, record: Submission)
    requires Inv(s) && job in s.held && job.task.None?
    requires record.entry.submittedAt != "" && record.entry.user == job.entry.user
    requires SubmitTransaction(s.db, job.task, record).1 == Stored
    ensures Inv(AfterSettle(s, job, record))
  {
    SettledValid(s.db, job.task, record);
    StoredDirectHistory(s, record, Settled(s.db, None, record));
  }

  lemma SettleKeeps(s: System, job: Job, record: Submission)
    requires Inv(s) && job in s.held
    requires record.entry.submittedAt != ""
    requires record.entry == job.entry || (job.task.None? && record.entry.user == job.entry.user)
    ensures Inv(AfterSettle(s, job, record))
  {
    var (db', kind) := SubmitTransaction(s.db, job.task, record);
    if kind != Stored {
      StatesKeep(s, db');
    } else if job.task.Some? {
      StoredTaskKeeps(s, job, record);
    } else {
      StoredDirectKeeps(s, job, record);
    }
  }

  lemma RemovedHistory(s: System, problem: nat)
    requires History(s)
    ensures
      var db' := Removed(s.db, problem);
      History(s.(db := db', dropped := s.dropped + (s.db.inFlight.Keys - db'.inFlight.Keys)))
  {
    assert Removed(s.db, problem).inFlight.Keys <= s.db.inFlight.Keys;
  }

  lemma RemoveKeeps(s: System, problem: nat)
    requires Inv(s)
    ensures Inv(Apply(s, RemoveProblem(problem)))
  {
    var s' := Apply(s, RemoveProblem(problem));
    if problem in s.db.problems && !HasSubmissions(s.db, problem) && !HasUnsettled(s.db, problem) {
      RemovedValid(s.db, problem);
      RemovedHistory(s, problem);
    } else {
      assert s'.dropped == s.dropped;
    }
  }

  lemma RejudgedHistory(s: System, id: nat, verdict: Status, db': Db)
    requires History(s) && id in s.db.submissions
    requires db'.submissions == s.db.submissions[id := s.db.submissions[id].(status := verdict)]
    requires db'.inFlight == s.db.inFlight && db'.users == s.db.users
    ensures History(s.(db := db'))
  {
  }

  lemma RejudgeKeeps(s: System, id: nat, original: Entry, verdict: Status, after: Db)
    requires Inv(s) && Enabled(s, FinishRejudge(id, original, verdict, after))
    ensures Inv(s.(db := after))
  {
    RejudgedValid(s.db, id, verdict, after);
    RejudgedHistory(s, id, verdict, after);
  }

  lemma PersistedHistory(s: System, task: TaskId, entry: Entry)
    requires History(s) && task !in s.issued && entry.submittedAt != ""
    ensures History(s.(db := Persisted(s.db, task, entry), issued := s.issued[task := entry]))
  {
    var s' := s.(db := Persisted(s.db, task, entry), issued := s.issued[task := entry]);
    PersistedAccounted(s, task, s');
    assert Faithful(s');
  }

  lemma PersistedAccounted(s: System, task: TaskId, s': System)
    requires Accounted(s) && task !in s.issued
    requires s'.issued.Keys == s.issued.Keys + {task} && s'.db.inFlight.Keys == s.db.inFlight.Keys + {task}
    requires s'.settled == s.settled && s'.dropped == s.dropped
    ensures Accounted(s')
  {
    assert task !in s.issued.Keys;
  }

  lemma PersistedValid(db: Db, task: TaskId, entry: Entry)
    requires DbValid(db) && task !in db.inFlight
    requires entry.submittedAt != "" && entry.user in db.users && entry.problem in db.problems
    ensures DbValid(Persisted(db, task, entry))
  {
    UntouchedConsistent(db, Persisted(db, task, entry));
  }

  lemma PersistKeeps(s: System, task: TaskId, entry: Entry, now: string)
    requires Inv(s) && Enabled(s, Persist(task, entry, now))
    ensures Inv(Apply(s, Persist(task, entry, now)))
  {
    PersistedValid(s.db, task, Stamped(entry, now));
    PersistedHistory(s, task, Stamped(entry, now));
  }

  lemma RowStepKeeps(s: System, step: Step)
    requires Inv(s) && Enabled(s, step)
    requires step.FindProblemMissing? || step.Discard? || step.ClaimRow? || step.LoseClaim? || step.ResetClaims?
    ensures Inv(Apply(s, step))
  {
    RowStepOnlyStates(s, step);
    StatesKeep(s, Apply(s, step).db);
  }

  lemma RowStepOnlyStates(s: System, step: Step)
    requires Enabled(s, step)
    requires step.FindProblemMissing? || step.Discard? || step.ClaimRow? || step.LoseClaim? || step.ResetClaims?
    ensures OnlyStates(s.db, Apply(s, step).db)
    ensures Apply(s, step) == s.(db := Apply(s, step).db)
  {
  }

  lemma VolatileStepKeeps(s: System, step: Step)
    requires Inv(s) && Enabled(s, step)
    requires step.Enqueue? || step.EnqueueDirect? || step.BeginRejudge? || step.Crash?
    ensures Inv(Apply(s, step))
  {
    assert History(Apply(s, step));
  }

  lemma RegisteredValid(db: Db, createdAt: string)
    requires DbValid(db)
    ensures DbValid(Registered(db, createdAt))
  {
    UntouchedConsistent(db, Registered(db, createdAt));
  }

  lemma CreatedValid(db: Db, data: Problem, samples: nat)
    requires DbValid(db)
    ensures DbValid(Created(db, data, samples))
  {
    var mid := db.(problems := db.problems[db.nextProblem := data], nextProblem := db.nextProblem + 1);
    UntouchedConsistent(db, mid);
    WithSamplesValid(mid, db.nextProblem, samples);
  }

  lemma ReplacedValid(db: Db, problem: nat, data: Problem)
    requires DbValid(db) && problem in db.problems
    ensures DbValid(db.(problems := db.problems[problem := data]))
  {
    UntouchedConsistent(db, db.(problems := db.problems[problem := data]));
  }

  lemma DroppedValid(db: Db, problem: nat)
    requires DbValid(db)
    ensures DbValid(DropSamples(db, problem))
  {
    UntouchedConsistent(db, DropSamples(db, problem));
  }

  lemma UpdatedValid(db: Db, problem: nat, data: Problem, samples: Option<nat>)
    requires DbValid(db) && problem in db.problems
    ensures DbValid(Updated(db, problem, data, samples))
  {
    var mid := db.(problems := db.problems[problem := data]);
    ReplacedValid(db, problem, data);
    if samples.Some? {
      DroppedValid(mid, problem);
      WithSamplesValid(DropSamples(mid, problem), problem, samples.value);
    }
  }

  lemma CatalogueStepKeeps(s: System, step: Step)
    requires Inv(s) && Enabled(s, step)
    requires step.Register? || step.CreateProblem? || step.UpdateProblem?
    ensures Inv(Apply(s, step))
  {
    match step {
      case Register(createdAt) => RegisteredValid(s.db, createdAt);
      case CreateProblem(data, samples) => CreatedValid(s.db, data, samples);
      case UpdateProblem(p, data, samples) => UpdatedValid(s.db, p, data, samples);
    }
    CatalogueLeavesRest(s, step);
    CatalogueKeeps(s, Apply(s, step).db);
  }

  lemma CatalogueLeavesRest(s: System, step: Step)
    requires Enabled(s, step) && (step.Register? || step.CreateProblem? || step.UpdateProblem?)
    ensures
      var db' := Apply(s, step).db;
      && Apply(s, step) == s.(db := db') && s.db.users.Keys <= db'.users.Keys
      && db'.submissions == s.db.submissions && db'.inFlight == s.db.inFlight
  {
    match step
    case Register(_) =>
    case CreateProblem(data, samples) =>
      SamplesLeaveRest(s.db.(problems := s.db.problems[s.db.nextProblem := data], nextProblem := s.db.nextProblem + 1),
                       s.db.nextProblem, samples);
    case UpdateProblem(p, data, samples) =>
      if samples.Some? {
        SamplesLeaveRest(DropSamples(s.db.(problems := s.db.problems[p := data]), p), p, samples.value);
      }
  }

  lemma LoseUserKeeps(s: System, user: nat)
    requires Inv(s) && Enabled(s, LoseUser(user))
    ensures Inv(Apply(s, LoseUser(user)))
  {
    UnregisteredValid(s.db, user);
    UnregisteredHistory(s, user);
  }

  lemma UnregisteredValid(db: Db, user: nat)
    requires DbValid(db) && Unreferenced(db, user)
    ensures DbValid(Unregistered(db, user))
  {
    UntouchedConsistent(db, Unregistered(db, user));
  }

  lemma UnregisteredHistory(s: System, user: nat)
    requires History(s) && forall job :: job in s.held && job.task.None? ==> job.entry.user != user
    ensures History(s.(db := Unregistered(s.db, user)))
  {
  }

  lemma StepKeeps(s: System, step: Step)
    requires Inv(s) && Enabled(s, step)
    ensures Inv(Apply(s, step))
  {
    match step
    case Register(_) => CatalogueStepKeeps(s, step);
    case LoseUser(user) => LoseUserKeeps(s, user);
    case CreateProblem(_, _) => CatalogueStepKeeps(s, step);
    case UpdateProblem(_, _, _) => CatalogueStepKeeps(s, step);
    case RemoveProblem(p) => RemoveKeeps(s, p);
    case Persist(task, entry, now) => PersistKeeps(s, task, entry, now);
    case Settle(job, verdict, now) => SettleKeeps(s, job, Submission(Stamped(job.entry, now), verdict));
    case FinishRejudge(id, original, verdict, after) => RejudgeKeeps(s, id, original, verdict, after);
    case Enqueue(_) => VolatileStepKeeps(s, step);
    case EnqueueDirect(_) => VolatileStepKeeps(s, step);
    case BeginRejudge(_) => VolatileStepKeeps(s, step);
    case Crash => VolatileStepKeeps(s, step);
    case _ => RowStepKeeps(s, step);
  }

  // ------------------------------------------------------------------ whole runs

  ghost predicate IsRun(s: System, steps: seq<Step>, s': System)
    decreases |steps|
  {
    if steps == [] then s == s'
    else Enabled(s, steps[0]) && IsRun(Apply(s, steps[0]), steps[1..], s')
  }

  lemma {:induction false} RunKeeps(s: System, steps: seq<Step>, s': System)
    requires Inv(s) && IsRun(s, steps, s')
    ensures Inv(s')
    decreases |steps|
  {
    if steps != [] {
      StepKeeps(s, steps[0]);
      RunKeeps(Apply(s, steps[0]), steps[1..], s');
    }
  }

  /** The three fates of an issued id: still one in-flight row, settled by one submission row
      that carries what was accepted, or dropped with its problem. */
  ghost predicate Open(s: System, t: TaskId) {
    t in s.issued && t in s.db.inFlight && s.db.inFlight[t].entry == s.issued[t]
  }

  ghost predicate SettledBy(s: System, t: TaskId, id: nat) {
    && t in s.issued && t in s.settled && s.settled[t] == id
    && id in s.db.submissions && s.db.submissions[id].entry == s.issued[t]
  }

  /** Settlement is exactly-once: every issued id has exactly one fate, its submission row is
      unique and nobody else's, and every submission row without a task was direct. */
  lemma ExactlyOnce(s: System, steps: seq<Step>, s': System)
    requires Init(s) && IsRun(s, steps, s')
    ensures forall t :: t in s'.issued ==>
              || (Open(s', t) && t !in s'.settled && t !in s'.dropped)
              || (t in s'.settled && SettledBy(s', t, s'.settled[t]) && t !in s'.db.inFlight && t !in s'.dropped)
              || (t in s'.dropped && t !in s'.db.inFlight && t !in s'.settled)
    ensures forall t, t', id :: SettledBy(s', t, id) && SettledBy(s', t', id) ==> t == t'
    ensures forall id :: id in s'.db.submissions && id !in s'.direct ==> exists t :: SettledBy(s', t, id)
    ensures forall t, id :: SettledBy(s', t, id) ==> id !in s'.direct
  {
    InitHolds(s);
    RunKeeps(s, steps, s');
    forall id | id in s'.db.submissions && id !in s'.direct
      ensures exists t :: SettledBy(s', t, id)
    {
      var t :| t in s'.settled && s'.settled[t] == id;
      assert SettledBy(s', t, id);
    }
  }

  /** Rows are conserved: nothing accepted is lost, nothing is stored twice. */
  lemma RowsConserved(s: System, steps: seq<Step>, s': System)
    requires Init(s) && IsRun(s, steps, s')
    ensures |s'.issued| == |s'.db.inFlight| + |s'.settled| + |s'.dropped|
    ensures |s'.db.submissions| == |s'.settled| + |s'.direct|
  {
    InitHolds(s);
    RunKeeps(s, steps, s');
    HistoryConserves(s');
  }

  lemma HistoryConserves(s: System)
    requires Accounted(s) && Faithful(s)
    ensures |s.issued| == |s.db.inFlight| + |s.settled| + |s.dropped|
    ensures |s.db.submissions| == |s.settled| + |s.direct|
  {
    DisjointCount(s.issued.Keys, s.db.inFlight.Keys, s.settled.Keys, s.dropped);
    assert forall t :: t in s.settled ==> t in s.issued.Keys;
    SubmissionsCounted(s.settled, s.db.submissions.Keys, s.direct);
  }

  lemma DisjointCount(all: set<TaskId>, a: set<TaskId>, b: set<TaskId>, c: set<TaskId>)
    requires all == a + b + c && a !! b && a !! c && b !! c
    ensures |all| == |a| + |b| + |c|
  {
    assert |a + b| == |a| + |b|;
    assert |(a + b) + c| == |a + b| + |c|;
  }

  lemma SubmissionsCounted(settled: map<TaskId, nat>, rows: set<nat>, direct: set<nat>)
    requires forall t, t' :: t in settled && t' in settled && settled[t] == settled[t'] ==> t == t'
    requires forall t :: t in settled ==> settled[t] in rows && settled[t] !in direct
    requires forall id :: id in rows ==> id in direct || Credited(settled, id)
    requires direct <= rows
    ensures |rows| == |settled| + |direct|
  {
    InjectiveImage(settled, rows - direct);
    assert rows == (rows - direct) + direct;
  }

  /** An injective map has as many keys as it has images. */
  lemma {:induction false} InjectiveImage(m: map<TaskId, nat>, image: set<nat>)
    requires forall t, t' :: t in m && t' in m && m[t] == m[t'] ==> t == t'
    requires forall t :: t in m ==> m[t] in image
    requires forall id :: id in image ==> Credited(m, id)
    ensures |m| == |image|
    decreases |m|
  {
    if m == map[] {
      assert image == {};
    } else {
      var t :| t in m;
      var rest := m - {t};
      forall id | id in image - {m[t]}
        ensures Credited(rest, id)
      {
        var t' :| t' in m && m[t'] == id;
        assert t' in rest && rest[t'] == id;
      }
      InjectiveImage(rest, image - {m[t]});
      assert m.Keys == rest.Keys + {t};
      assert image == (image - {m[t]}) + {m[t]};
    }
  }

  /** What `later` must still know of `earlier`: fates are final, entries are immutable. */
  ghost predicate Remembers(earlier: System, later: System) {
    && (forall t :: t in earlier.issued ==> t in later.issued && later.issued[t] == earlier.issued[t])
    && (forall t :: t in earlier.settled ==> t in later.settled && later.settled[t] == earlier.settled[t])
    && earlier.dropped <= later.dropped
    && (forall id :: id in earlier.db.submissions ==>
          id in later.db.submissions && later.db.submissions[id].entry == earlier.db.submissions[id].entry)
  }

  lemma StepRemembers(s: System, step: Step)
    requires Inv(s) && Enabled(s, step)
    ensures Remembers(s, Apply(s, step))
  {
    match step
    case Settle(job, verdict, now) => SettleRemembers(s, job, Submission(Stamped(job.entry, now), verdict));
    case FinishRejudge(id, original, verdict, after) =>
      assert after.submissions == StatusReplaced(s.db, id, verdict).submissions;
    case _ => OtherStepsAdd(s, step);
  }

  lemma SettleRemembers(s: System, job: Job, record: Submission)
    requires Accounted(s) && forall id :: id in s.db.submissions ==> id < s.db.nextSubmission
    ensures Remembers(s, AfterSettle(s, job, record))
  {
    var (_, kind) := SubmitTransaction(s.db, job.task, record);
    assert kind == Stored && job.task.Some? ==> job.task.value !in s.settled.Keys;
  }

  /** The steps that neither settle nor rejudge write no submission, and at most add to the rest. */
  lemma OtherStepsAdd(s: System, step: Step)
    requires Enabled(s, step) && !step.Settle? && !step.FinishRejudge?
    ensures
      var s' := Apply(s, step);
      && s'.db.submissions == s.db.submissions && s'.settled == s.settled && s.dropped <= s'.dropped
      && (|| s'.issued == s.issued
          || (&& step.Persist? && step.task !in s.issued
              && s'.issued == s.issued[step.task := s'.issued[step.task]]))
  {
    match step
    case CreateProblem(data, samples) =>
      SamplesLeaveRest(s.db.(problems := s.db.problems[s.db.nextProblem := data], nextProblem := s.db.nextProblem + 1),
                       s.db.nextProblem, samples);
    case UpdateProblem(p, data, samples) =>
      if samples.Some? {
        SamplesLeaveRest(DropSamples(s.db.(problems := s.db.problems[p := data]), p), p, samples.value);
      }
    case _ =>
  }

  lemma {:induction false} SamplesLeaveRest(db: Db, problem: nat, samples: nat)
    ensures WithSamples(db, problem, samples).submissions == db.submissions
    ensures WithSamples(db, problem, samples).inFlight == db.inFlight
    ensures WithSamples(db, problem, samples).users == db.users
    decreases samples
  {
    if samples > 0 {
      SamplesLeaveRest(db.(testcases := db.testcases[db.nextTestcase := Testcase(problem, true)],
                           nextTestcase := db.nextTestcase + 1), problem, samples - 1);
    }
  }

  /** A task settled at some moment is settled by the same submission row ever after. */
  lemma {:induction false} FatesAreFinal(s: System, steps: seq<Step>, s': System)
    requires Inv(s) && IsRun(s, steps, s')
    ensures Remembers(s, s')
    ensures forall t, id :: SettledBy(s, t, id) ==> SettledBy(s', t, id)
    decreases |steps|
  {
    if steps != [] {
      var next := Apply(s, steps[0]);
      StepKeeps(s, steps[0]);
      StepRemembers(s, steps[0]);
      FatesAreFinal(next, steps[1..], s');
      assert forall id :: id in s.db.submissions ==> id in next.db.submissions;
    }
  }

  /** An in-flight row leaves the table only by being settled, or as an interrupted row whose
      problem is deleted. */
  lemma OpenRowsLeaveBySettlement(s: System, step: Step, t: TaskId)
    requires History(s) && Enabled(s, step) && t in s.db.inFlight && t !in Apply(s, step).db.inFlight
    ensures || (&& step.Settle? && step.job == Job(Some(t), s.issued[t])
                && SettledBy(Apply(s, step), t, s.db.nextSubmission))
            || (step.RemoveProblem? && step.problem == s.issued[t].problem && s.db.inFlight[t].state.Interrupted?)
  {
    match step
    case Settle(job, verdict, now) => SettleTakesOwnRow(s, job, Submission(Stamped(job.entry, now), verdict), t);
    case RemoveProblem(p) => RemovalTakesInterrupted(s, p, t);
    case _ => OtherStepsKeepRows(s, step);
  }

  lemma RemovalTakesInterrupted(s: System, problem: nat, t: TaskId)
    requires History(s) && t in s.db.inFlight && t !in Apply(s, RemoveProblem(problem)).db.inFlight
    ensures problem == s.issued[t].problem && s.db.inFlight[t].state.Interrupted?
  {
  }

  lemma SettleTakesOwnRow(s: System, job: Job, record: Submission, t: TaskId)
    requires History(s) && job in s.held && record.entry == Stamped(job.entry, record.entry.submittedAt)
    requires t in s.db.inFlight && t !in AfterSettle(s, job, record).db.inFlight
    ensures job == Job(Some(t), s.issued[t])
    ensures SettledBy(AfterSettle(s, job, record), t, s.db.nextSubmission)
  {
    assert job.task == Some(t);
    assert record.entry == s.issued[t];
  }

  lemma OtherStepsKeepRows(s: System, step: Step)
    requires Enabled(s, step) && !step.Settle? && !step.RemoveProblem?
    ensures s.db.inFlight.Keys <= Apply(s, step).db.inFlight.Keys
  {
    match step
    case CreateProblem(data, samples) =>
      SamplesLeaveRest(s.db.(problems := s.db.problems[s.db.nextProblem := data], nextProblem := s.db.nextProblem + 1),
                       s.db.nextProblem, samples);
    case UpdateProblem(p, data, samples) =>
      if samples.Some? {
        SamplesLeaveRest(DropSamples(s.db.(problems := s.db.problems[p := data]), p), p, samples.value);
      }
    case _ =>
  }

  /** Referential integrity holds after every run, so a worker holding a task that was not
      dropped as interrupted always finds its problem. */
  lemma WorkerFindsProblem(s: System, steps: seq<Step>, s': System, job: Job)
    requires Init(s) && IsRun(s, steps, s')
    requires job in s'.held && job.task.Some? && job.task.value !in s'.dropped
    ensures Referential(s'.db)
    ensures job.entry.problem in s'.db.problems
  {
    InitHolds(s);
    RunKeeps(s, steps, s');
    HeldTaskHasProblem(s', job);
  }

  lemma HeldTaskHasProblem(s: System, job: Job)
    requires History(s) && Referential(s.db)
    requires job in s.held && job.task.Some? && job.task.value !in s.dropped
    ensures job.entry.problem in s.db.problems
  {
    var t := job.task.value;
    assert t in s.issued.Keys;
    if t in s.settled {
      assert s.db.submissions[s.settled[t]].entry == job.entry;
    } else {
      assert s.db.inFlight[t].entry == job.entry;
    }
  }

  /** In every reachable state the status table is the summary of the submissions table. */
  lemma StatisticsAlwaysAgree(s: System, steps: seq<Step>, s': System, user: nat, problem: nat)
    requires Init(s) && IsRun(s, steps, s')
    ensures (user, problem) in s'.db.statuses <==> exists id :: IsOf(s'.db, id, user, problem)
    ensures (user, problem) in s'.db.statuses ==>
              var row := s'.db.statuses[(user, problem)];
              && row.submitCount == |IdsOf(s'.db, user, problem)|
              && (row.accepted <==> exists id :: IsAcOf(s'.db, id, user, problem))
              && IsFirstAc(s'.db, user, problem, row.firstAcAt)
  {
    InitHolds(s);
    RunKeeps(s, steps, s');
    assert RowConsistent(s'.db, user, problem);
    assert forall id :: IsOf(s'.db, id, user, problem) <==> id in IdsOf(s'.db, user, problem);
  }

  // ------------------------------------------------------------------------- progress

  /** A rejudge that is under way can always be concluded with a verdict. */
  lemma RejudgeCanFinish(s: System, id: nat, original: Entry, verdict: Status) returns (after: Db)
    requires Inv(s) && (id, original) in s.rejudging && verdict != SYSERR
    ensures Enabled(s, FinishRejudge(id, original, verdict, after))
  {
    var replaced := StatusReplaced(s.db, id, verdict);
    var first := FirstAcExists(replaced, original.user, original.problem);
    after := WithRecomputed(replaced, original.user, original.problem, first);
  }

  ghost function Unsettled(db: Db): set<TaskId> {
    set t | t in db.inFlight && !db.inFlight[t].state.Interrupted?
  }

  lemma {:induction false} RunsConcatenate(s: System, a: seq<Step>, mid: System, b: seq<Step>, s': System)
    requires IsRun(s, a, mid) && IsRun(mid, b, s')
    ensures IsRun(s, a + b, s')
    decreases |a|
  {
    if a == [] {
      assert a + b == b;
    } else {
      RunsConcatenate(Apply(s, a[0]), a[1..], mid, b, s');
      assert (a + b)[0] == a[0] && (a + b)[1..] == a[1..] + b;
    }
  }

  /** What recovery and the workers do for one in-flight row. */
  function RowSteps(db: Db, t: TaskId, entry: Entry, verdict: Status, now: string): seq<Step>
    requires t in db.inFlight
  {
    [ClaimRow(db.inFlight[t].id), Enqueue(t), Settle(Job(Some(t), entry), verdict, now)]
  }

  /** All that settling a task depends on. */
  ghost predicate Ready(s: System, t: TaskId) {
    && t in s.issued && t in Unsettled(s.db) && s.db.inFlight[t].entry == s.issued[t]
    && s.issued[t].problem in s.db.problems && s.issued[t].submittedAt != ""
  }

  ghost predicate AllReady(s: System) {
    && (forall t :: t in Unsettled(s.db) ==> Ready(s, t) && t !in s.settled)
    && (forall id :: id in s.db.submissions ==> id < s.db.nextSubmission)
  }

  lemma UnsettledAreReady(s: System)
    requires Inv(s)
    ensures AllReady(s)
  {
    forall t | t in Unsettled(s.db)
      ensures Ready(s, t) && t !in s.settled
    {
      UnsettledIsReady(s, t);
    }
  }

  lemma UnsettledIsReady(s: System, t: TaskId)
    requires History(s) && Referential(s.db) && t in Unsettled(s.db)
    ensures Ready(s, t) && t !in s.settled
  {
    assert t in s.issued.Keys && t !in s.settled.Keys;
    assert s.db.inFlight[t].entry == s.issued[t];
  }

  lemma ClaimStaysReady(s: System, t: TaskId, row: nat)
    requires Ready(s, t)
    ensures Ready(s.(db := ClaimedRow(s.db, row)), t)
    ensures Unsettled(ClaimedRow(s.db, row)) == Unsettled(s.db)
  {
  }

  lemma SettleStores(s: System, t: TaskId, verdict: Status, now: string)
    requires Ready(s, t)
    ensures
      var s' := AfterSettle(s, Job(Some(t), s.issued[t]), Submission(Stamped(s.issued[t], now), verdict));
      && Unsettled(s'.db) == Unsettled(s.db) - {t}
      && s'.issued == s.issued && s'.settled == s.settled[t := s.db.nextSubmission]
      && s'.db.submissions == s.db.submissions[s.db.nextSubmission := Submission(s.issued[t], verdict)]
  {
  }

  lemma RunOfThree(s: System, a: Step, b: Step, c: Step)
    requires Enabled(s, a) && Enabled(Apply(s, a), b) && Enabled(Apply(Apply(s, a), b), c)
    ensures IsRun(s, [a, b, c], Apply(Apply(Apply(s, a), b), c))
  {
    var end := Apply(Apply(Apply(s, a), b), c);
    assert [a, b, c][1..] == [b, c] && [b, c][1..] == [c] && [c][1..] == [];
    assert IsRun(end, [], end);
    assert IsRun(Apply(Apply(s, a), b), [c], end);
    assert IsRun(Apply(s, a), [b, c], end);
  }

  /** The steps for one row settle it with whatever verdict the judge comes to. */
  lemma SettleOne(s: System, t: TaskId, verdict: Status, now: string) returns (steps: seq<Step>, s': System)
    requires Ready(s, t) && now != ""
    ensures steps == RowSteps(s.db, t, s.issued[t], verdict, now)
    ensures IsRun(s, steps, s') && Unsettled(s'.db) == Unsettled(s.db) - {t}
    ensures s'.issued == s.issued && s'.settled == s.settled[t := s.db.nextSubmission]
    ensures s'.db.submissions == s.db.submissions[s.db.nextSubmission := Submission(s.issued[t], verdict)]
    ensures s'.db.nextSubmission == s.db.nextSubmission + 1 && s'.db.problems == s.db.problems
    ensures forall t' :: t' in s'.db.inFlight ==>
              t' in s.db.inFlight && s'.db.inFlight[t'].entry == s.db.inFlight[t'].entry
  {
    var row, job := s.db.inFlight[t].id, Job(Some(t), s.issued[t]);
    steps := RowSteps(s.db, t, s.issued[t], verdict, now);
    ClaimStaysReady(s, t, row);
    var claimed := s.(db := ClaimedRow(s.db, row));
    var queued := claimed.(held := claimed.held + {job});
    assert Ready(queued, t);
    SettleStores(queued, t, verdict, now);
    s' := AfterSettle(queued, job, Submission(Stamped(s.issued[t], now), verdict));
    assert Apply(s, ClaimRow(row)) == claimed && Apply(claimed, Enqueue(t)) == queued;
    assert Apply(queued, Settle(job, verdict, now)) == s';
    RunOfThree(s, ClaimRow(row), Enqueue(t), Settle(job, verdict, now));
  }

  predicate IsRecoveryStep(step: Step) {
    step.ClaimRow? || step.Enqueue? || step.Settle?
  }

  ghost predicate SettledWith(s: System, t: TaskId, entry: Entry, verdict: Status) {
    && t in s.settled && s.settled[t] in s.db.submissions
    && s.db.submissions[s.settled[t]] == Submission(entry, verdict)
  }

  /** No settlement with its verdict is lost from `s` to `s'`. */
  ghost predicate KeepsSettled(s: System, s': System) {
    forall t, entry, verdict :: SettledWith(s, t, entry, verdict) ==> SettledWith(s', t, entry, verdict)
  }

  /** The tasks of `open` are settled with the accepted entries and the given verdicts. */
  ghost predicate AllSettled(s: System, open: set<TaskId>, issued: map<TaskId, Entry>, verdicts: TaskId -> Status) {
    forall t :: t in open && t in issued ==> SettledWith(s, t, issued[t], verdicts(t))
  }

  lemma {:induction false} DrainRows(s: System, verdicts: TaskId -> Status, now: string)
    returns (steps: seq<Step>, s': System)
    requires AllReady(s) && now != ""
    ensures IsRun(s, steps, s') && Unsettled(s'.db) == {}
    ensures forall k :: 0 <= k < |steps| ==> IsRecoveryStep(steps[k])
    ensures AllSettled(s', Unsettled(s.db), s.issued, verdicts) && KeepsSettled(s, s')
    decreases |Unsettled(s.db)|
  {
    if Unsettled(s.db) == {} {
      return [], s;
    }
    var t :| t in Unsettled(s.db);
    var first, mid := DrainOne(s, t, verdicts, now);
    var rest;
    rest, s' := DrainRows(mid, verdicts, now);
    RunsConcatenate(s, first, mid, rest, s');
    steps := first + rest;
    SettledCompose(s, t, verdicts, mid, s');
  }

  lemma DrainOne(s: System, t: TaskId, verdicts: TaskId -> Status, now: string) returns (steps: seq<Step>, s': System)
    requires AllReady(s) && t in Unsettled(s.db) && now != ""
    ensures IsRun(s, steps, s') && AllReady(s') && forall k :: 0 <= k < |steps| ==> IsRecoveryStep(steps[k])
    ensures Unsettled(s'.db) == Unsettled(s.db) - {t} && s'.issued == s.issued
    ensures t in s.issued && KeepsSettled(s, s') && SettledWith(s', t, s.issued[t], verdicts(t))
  {
    steps, s' := SettleOne(s, t, verdicts(t), now);
    OneSettled(s, t, verdicts, s');
    OthersStayReady(s, t, s');
  }

  lemma OthersStayReady(s: System, t: TaskId, s': System)
    requires AllReady(s) && t in Unsettled(s.db) && Unsettled(s'.db) == Unsettled(s.db) - {t}
    requires s'.issued == s.issued && s'.settled == s.settled[t := s.db.nextSubmission]
    requires s'.db.submissions.Keys == s.db.submissions.Keys + {s.db.nextSubmission}
    requires s'.db.nextSubmission == s.db.nextSubmission + 1 && s'.db.problems == s.db.problems
    requires forall t' :: t' in s'.db.inFlight ==>
               t' in s.db.inFlight && s'.db.inFlight[t'].entry == s.db.inFlight[t'].entry
    ensures AllReady(s')
  {
    forall t' | t' in Unsettled(s'.db)
      ensures Ready(s', t') && t' !in s'.settled
    {
      assert t' in Unsettled(s.db) && Ready(s, t');
    }
    assert forall id :: id in s'.db.submissions ==> id in s'.db.submissions.Keys;
  }

  lemma OneSettled(s: System, t: TaskId, verdicts: TaskId -> Status, mid: System)
    requires forall id :: id in s.db.submissions ==> id < s.db.nextSubmission
    requires t in s.issued && t !in s.settled && mid.settled == s.settled[t := s.db.nextSubmission]
    requires mid.db.submissions == s.db.submissions[s.db.nextSubmission := Submission(s.issued[t], verdicts(t))]
    ensures KeepsSettled(s, mid) && SettledWith(mid, t, s.issued[t], verdicts(t))
  {
  }

  lemma SettledCompose(s: System, t: TaskId, verdicts: TaskId -> Status, mid: System, s': System)
    requires t in s.issued && KeepsSettled(s, mid) && SettledWith(mid, t, s.issued[t], verdicts(t))
    requires Unsettled(mid.db) == Unsettled(s.db) - {t} && mid.issued == s.issued
    requires AllSettled(s', Unsettled(mid.db), mid.issued, verdicts) && KeepsSettled(mid, s')
    ensures AllSettled(s', Unsettled(s.db), s.issued, verdicts) && KeepsSettled(s, s')
  {
  }

  /** Nothing accepted is ever beyond recovery: after any run and a crash, resetting the claims
      and then claiming, enqueueing and settling row by row leaves no unsettled in-flight row,
      and each of them ends as a submission with the accepted entry and the judge's verdict. */
  lemma CrashIsRecoverable(s: System, steps: seq<Step>, s': System, verdicts: TaskId -> Status, now: string)
    returns (more: seq<Step>, s'': System)
    requires Init(s) && IsRun(s, steps, s') && now != ""
    ensures IsRun(s', [Crash, ResetClaims] + more, s'') && Unsettled(s''.db) == {}
    ensures forall k :: 0 <= k < |more| ==> IsRecoveryStep(more[k])
    ensures AllSettled(s'', Unsettled(s'.db), s'.issued, verdicts)
  {
    InitHolds(s);
    RunKeeps(s, steps, s');
    var reset := Restarted(s');
    RunKeeps(s', [Crash, ResetClaims], reset);
    UnsettledAreReady(reset);
    more, s'' := DrainRows(reset, verdicts, now);
    RunsConcatenate(s', [Crash, ResetClaims], reset, more, s'');
  }

  lemma Restarted(s: System) returns (s': System)
    ensures IsRun(s, [Crash, ResetClaims], s')
    ensures Unsettled(s'.db) == Unsettled(s.db) && s'.issued == s.issued
  {
    var crashed := Apply(s, Crash);
    s' := Apply(crashed, ResetClaims);
    assert [Crash, ResetClaims][1..] == [ResetClaims] && [ResetClaims][1..] == [];
    assert IsRun(crashed, [ResetClaims], s');
  }
}
