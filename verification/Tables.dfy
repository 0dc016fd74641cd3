/** The tables of the database and, for every write transaction of the server, the state
    it commits. A transaction either commits exactly that state or leaves the tables as
    they were; `Services` derives this from the statements of each transaction. */
module Tables {
  import opened JudgeStatus
  import opened Options
  import TextOrder

  type TaskId = string

  datatype User = User(createdAt: string)
  datatype Problem = Problem(visible: bool, timeLimitMs: int, memoryLimitKb: int)
  datatype Testcase = Testcase(problem: nat, isSample: bool)

  datatype RowState = Pending | Claimed | Interrupted

  /** What a user handed in: it is fixed when the submission is accepted. */
  datatype Entry = Entry(user: nat, problem: nat, language: string, source: string, submittedAt: string)

  datatype InFlightRow = InFlightRow(id: nat, entry: Entry, state: RowState)

  datatype Submission = Submission(entry: Entry, status: Status)

  datatype StatusRow = StatusRow(accepted: bool, firstAcAt: Option<string>, submitCount: nat)

  /** `nextX` is the next AUTOINCREMENT key of table X. */
  datatype Db = Db(
    users: map<nat, User>,
    problems: map<nat, Problem>,
    testcases: map<nat, Testcase>,
    submissions: map<nat, Submission>,
    statuses: map<(nat, nat), StatusRow>,
    inFlight: map<TaskId, InFlightRow>,
    nextUser: nat,
    nextProblem: nat,
    nextTestcase: nat,
    nextSubmission: nat,
    nextRow: nat)

  /** The rows of `submissions` of one user for one problem. */
  ghost predicate IsOf(db: Db, id: nat, user: nat, problem: nat) {
    id in db.submissions && db.submissions[id].entry.user == user && db.submissions[id].entry.problem == problem
  }

  ghost predicate IsAcOf(db: Db, id: nat, user: nat, problem: nat) {
    IsOf(db, id, user, problem) && db.submissions[id].status == AC
  }

  ghost function IdsOf(db: Db, user: nat, problem: nat): set<nat> {
    set id | id in db.submissions && IsOf(db, id, user, problem)
  }

  /** `SELECT MIN(created_at) ... WHERE status = 'AC'` returns this value. */
  ghost predicate IsFirstAc(db: Db, user: nat, problem: nat, first: Option<string>) {
    match first
    case None => forall id :: !IsAcOf(db, id, user, problem)
    case Some(t) =>
      && (exists id :: IsAcOf(db, id, user, problem) && db.submissions[id].entry.submittedAt == t)
      && forall id :: IsAcOf(db, id, user, problem) ==> TextOrder.AtMost(t, db.submissions[id].entry.submittedAt)
  }

  // ---------------------------------------------------------------- status arithmetic

  /** The current status as the settlement reads it: a missing row reads as the default
      record, and a NULL time as the empty text. */
  datatype StatusState = StatusState(accepted: bool, firstAcAt: string, submitCount: nat)

  datatype StatusUpdate = StatusUpdate(accepted: bool, hasFirstAcAt: bool, firstAcAt: string, submitCount: nat)

  function ReadStatus(db: Db, user: nat, problem: nat): StatusState {
    if (user, problem) !in db.statuses then StatusState(false, "", 0)
    else
      var row := db.statuses[(user, problem)];
      StatusState(row.accepted, if row.firstAcAt.Some? then row.firstAcAt.value else "", row.submitCount)
  }

  function ComputeStatusUpdate(current: StatusState, accepted: bool, time: string): StatusUpdate {
    if current.accepted then
      var best :=
        if accepted && time != "" && (current.firstAcAt == "" || TextOrder.Less(time, current.firstAcAt)) then time
        else current.firstAcAt;
      StatusUpdate(true, best != "", best, current.submitCount + 1)
    else if accepted then
      StatusUpdate(true, true, time, current.submitCount + 1)
    else
      StatusUpdate(false, false, "", current.submitCount + 1)
  }

  function RowOf(update: StatusUpdate): StatusRow {
    StatusRow(update.accepted, if update.hasFirstAcAt then Some(update.firstAcAt) else None, update.submitCount)
  }

  // ---------------------------------------------------------------- committed states

  function Registered(db: Db, createdAt: string): Db {
    db.(users := db.users[db.nextUser := User(createdAt)], nextUser := db.nextUser + 1)
  }

  /** A registration is written outside any transaction of its own, on the shared connection, so
      the rollback of another one can take it away again, with its key. */
  function Unregistered(db: Db, user: nat): Db {
    db.(users := db.users - {user}, nextUser := if user + 1 == db.nextUser then user else db.nextUser)
  }

  /** No row of any other table names the user. */
  ghost predicate Unreferenced(db: Db, user: nat) {
    && (forall id :: id in db.submissions ==> db.submissions[id].entry.user != user)
    && (forall k :: k in db.statuses ==> k.0 != user)
    && (forall t :: t in db.inFlight ==> db.inFlight[t].entry.user != user)
  }

  function WithSamples(db: Db, problem: nat, samples: nat): Db
    decreases samples
  {
    if samples == 0 then db
    else WithSamples(
           db.(testcases := db.testcases[db.nextTestcase := Testcase(problem, true)],
               nextTestcase := db.nextTestcase + 1),
           problem, samples - 1)
  }

  function Created(db: Db, data: Problem, samples: nat): Db {
    WithSamples(
      db.(problems := db.problems[db.nextProblem := data], nextProblem := db.nextProblem + 1),
      db.nextProblem, samples)
  }

  function DropSamples(db: Db, problem: nat): Db {
    db.(testcases := map t | t in db.testcases && !(db.testcases[t].problem == problem && db.testcases[t].isSample)
                       :: db.testcases[t])
  }

  function Updated(db: Db, problem: nat, data: Problem, samples: Option<nat>): Db {
    var updated := db.(problems := db.problems[problem := data]);
    if samples.None? then updated
    else WithSamples(DropSamples(updated, problem), problem, samples.value)
  }

  predicate HasSubmissions(db: Db, problem: nat) {
    exists id :: id in db.submissions && db.submissions[id].entry.problem == problem
  }

  predicate HasUnsettled(db: Db, problem: nat) {
    exists t :: t in db.inFlight && db.inFlight[t].entry.problem == problem && !db.inFlight[t].state.Interrupted?
  }

  function Removed(db: Db, problem: nat): Db {
    db.(testcases := map t | t in db.testcases && db.testcases[t].problem != problem :: db.testcases[t],
        statuses := map k | k in db.statuses && k.1 != problem :: db.statuses[k],
        inFlight := map t | t in db.inFlight && db.inFlight[t].entry.problem != problem :: db.inFlight[t],
        problems := db.problems - {problem})
  }

  function Persisted(db: Db, task: TaskId, entry: Entry): Db {
    db.(inFlight := db.inFlight[task := InFlightRow(db.nextRow, entry, Pending)], nextRow := db.nextRow + 1)
  }

  function WithState(db: Db, task: TaskId, state: RowState): Db {
    if task in db.inFlight then db.(inFlight := db.inFlight[task := db.inFlight[task].(state := state)]) else db
  }

  function MarkedInterrupted(db: Db, task: TaskId): Db {
    WithState(db, task, Interrupted)
  }

  /** `UPDATE ... SET state = 'claimed' WHERE id = ? AND state = 'pending'`. */
  function ClaimedRow(db: Db, id: nat): Db {
    db.(inFlight := map t | t in db.inFlight ::
          if db.inFlight[t].id == id && db.inFlight[t].state.Pending? then db.inFlight[t].(state := Claimed)
          else db.inFlight[t])
  }

  function ClaimsReset(db: Db): Db {
    db.(inFlight := map t | t in db.inFlight ::
          if db.inFlight[t].state.Claimed? then db.inFlight[t].(state := Pending) else db.inFlight[t])
  }

  /** The settlement transaction: the in-flight row goes, the submission comes, the status
      row follows. `task` is None for a submission that was never persisted in flight. */
  function Settled(db: Db, task: Option<TaskId>, record: Submission): Db {
    var e := record.entry;
    var update := ComputeStatusUpdate(ReadStatus(db, e.user, e.problem), record.status == AC, e.submittedAt);
    db.(inFlight := if task.Some? then db.inFlight - {task.value} else db.inFlight,
        submissions := db.submissions[db.nextSubmission := record],
        nextSubmission := db.nextSubmission + 1,
        statuses := db.statuses[(e.user, e.problem) := RowOf(update)])
  }

  /** `UPDATE submissions SET status = ... WHERE id = ?`: the entry is not written. */
  function StatusReplaced(db: Db, id: nat, status: Status): Db {
    if id in db.submissions then db.(submissions := db.submissions[id := db.submissions[id].(status := status)]) else db
  }

  /** The committed state of `recompute`: the count of an existing row is kept, a missing
      row is counted, and the first AC time is aggregated again. */
  ghost predicate IsRecomputed(db: Db, user: nat, problem: nat, db': Db) {
    exists first: Option<string> ::
      IsFirstAc(db, user, problem, first) && db' == WithRecomputed(db, user, problem, first)
  }

  ghost function WithRecomputed(db: Db, user: nat, problem: nat, first: Option<string>): Db {
    var count := if (user, problem) in db.statuses then db.statuses[(user, problem)].submitCount
                 else |IdsOf(db, user, problem)|;
    db.(statuses := db.statuses[(user, problem) := StatusRow(first.Some?, first, count)])
  }

  // ------------------------------------------------------------------ transactions

  datatype SubmitKind = Stored | ProblemNotFound | AlreadySettled | Failed
  datatype DeleteKind = Deleted | NotFound | HasHistory | DeleteFailed

  /** The settlement transaction with its two re-checks: the problem must still exist, and
      a task persisted in flight must still have its row. */
  function SubmitTransaction(db: Db, task: Option<TaskId>, record: Submission): (Db, SubmitKind) {
    if record.entry.problem !in db.problems then
      (if task.Some? then MarkedInterrupted(db, task.value) else db, ProblemNotFound)
    else if task.Some? && task.value !in db.inFlight then
      (db, AlreadySettled)
    else
      (Settled(db, task, record), Stored)
  }

  function RemoveTransaction(db: Db, problem: nat): (Db, DeleteKind) {
    if problem !in db.problems then (db, NotFound)
    else if HasSubmissions(db, problem) || HasUnsettled(db, problem) then (db, HasHistory)
    else (Removed(db, problem), Deleted)
  }

  /** The entry as it is stored: a missing time is replaced by the current one. */
  function Stamped(entry: Entry, now: string): Entry {
    if entry.submittedAt == "" then entry.(submittedAt := now) else entry
  }
}
