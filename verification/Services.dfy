/** The write transactions as the services run them: statement by statement, each of which
    can fail, with an early rollback on every failure. Each method commits the whole state
    that `Tables` defines for it or leaves the tables exactly as they were, and it does the
    former whenever no statement fails. */
module Services {
  import opened JudgeStatus
  import opened Options
  import opened Tables
  import TextOrder

  const MAX_ATTEMPTS := 5

  predicate HasFree(db: Db, ids: seq<TaskId>) {
    exists k :: 0 <= k < |ids| && ids[k] !in db.inFlight
  }

  ghost predicate IsFirstFree(db: Db, ids: seq<TaskId>, task: TaskId) {
    && task !in db.inFlight
    && exists k :: 0 <= k < |ids| && ids[k] == task && forall j :: 0 <= j < k ==> ids[j] in db.inFlight
  }

  /** The one change is a pending row of the task with the entry, under a new key. */
  ghost predicate AddsPending(db: Db, db': Db, task: TaskId, entry: Entry) {
    && db'.inFlight == db.inFlight[task := InFlightRow(db.nextRow, entry, Pending)]
    && db' == db.(inFlight := db'.inFlight, nextRow := db.nextRow + 1)
  }

  /** The connection. `saved` is the image an open transaction would roll back to; on a
      `healthy` connection no statement fails, on any other each may. */
  class Database {
    const healthy: bool
    var tables: Db
    var saved: Option<Db>

    constructor (tables: Db, healthy: bool)
      ensures this.tables == tables && saved == None && this.healthy == healthy
    {
      this.tables, saved, this.healthy := tables, None, healthy;
    }

    method Executes() returns (ok: bool)
      ensures healthy ==> ok
    {
      ok := *;
      ok := ok || healthy;
    }

    method Begin() returns (ok: bool)
      requires saved.None?
      modifies this
      ensures tables == old(tables)
      ensures saved == if ok then Some(tables) else None
      ensures healthy ==> ok
    {
      ok := Executes();
      if ok {
        saved := Some(tables);
      }
    }

    method Commit() returns (ok: bool)
      requires saved.Some?
      modifies this
      ensures tables == old(tables)
      ensures saved == if ok then None else old(saved)
      ensures healthy ==> ok
    {
      ok := Executes();
      if ok {
        saved := None;
      }
    }

    method Rollback()
      requires saved.Some?
      modifies this
      ensures tables == old(saved.value) && saved == None
    {
      tables, saved := saved.value, None;
    }

    // ------------------------------------------------------------------- statements

    method FindProblem(id: nat) returns (ok: bool, found: bool)
      ensures ok ==> found == (id in tables.problems)
      ensures healthy ==> ok
    {
      ok := Executes();
      found := id in tables.problems;
    }

    method FindSubmission(id: nat) returns (ok: bool, found: bool)
      ensures ok ==> found == (id in tables.submissions)
      ensures healthy ==> ok
    {
      ok := Executes();
      found := id in tables.submissions;
    }

    /** Inserts a pending row under a generated id, one of `ids` in turn until one is free. */
    method InsertInFlight(entry: Entry, ids: seq<TaskId>) returns (ok: bool, task: TaskId)
      requires |ids| == MAX_ATTEMPTS
      modifies this`tables
      ensures ok ==> IsFirstFree(old(tables), ids, task) && tables == Persisted(old(tables), task, entry)
      ensures ok ==> AddsPending(old(tables), tables, task, entry)
      ensures !ok ==> tables == old(tables)
      ensures healthy && HasFree(old(tables), ids) ==> ok
    {
      ok, task := false, "";
      var attempt := 0;
      while attempt < MAX_ATTEMPTS
        invariant 0 <= attempt <= MAX_ATTEMPTS && tables == old(tables)
        invariant forall k :: 0 <= k < attempt ==> ids[k] in tables.inFlight
      {
        var ran := Executes();
        if !ran {
          return false, "";
        }
        if ids[attempt] !in tables.inFlight {
          task := ids[attempt];
          tables := Persisted(tables, task, entry);
          return true, task;
        }
        attempt := attempt + 1;
      }
    }

    method RemoveByTaskId(task: TaskId) returns (ok: bool, removed: bool)
      modifies this`tables
      ensures ok ==> removed == (task in old(tables.inFlight))
      ensures ok ==> tables == old(tables).(inFlight := old(tables).inFlight - {task})
      ensures !ok ==> tables == old(tables)
      ensures healthy ==> ok
    {
      ok := Executes();
      removed := task in tables.inFlight;
      if ok {
        tables := tables.(inFlight := tables.inFlight - {task});
      }
    }

    method MarkInterrupted(task: TaskId) returns (ok: bool)
      modifies this`tables
      ensures tables == if ok then MarkedInterrupted(old(tables), task) else old(tables)
      ensures healthy ==> ok
    {
      ok := Executes();
      if ok && task in tables.inFlight && !tables.inFlight[task].state.Interrupted? {
        tables := tables.(inFlight := tables.inFlight[task := tables.inFlight[task].(state := Interrupted)]);
      }
      assert ok ==> tables.inFlight == MarkedInterrupted(old(tables), task).inFlight;
    }

    method InsertSubmission(record: Submission) returns (ok: bool, id: nat)
      modifies this`tables
      ensures ok ==> id == old(tables).nextSubmission
      ensures ok ==>
                tables == old(tables).(submissions := old(tables).submissions[id := record], nextSubmission := id + 1)
      ensures !ok ==> tables == old(tables)
      ensures healthy ==> ok
    {
      ok := Executes();
      id := tables.nextSubmission;
      if ok {
        tables := tables.(submissions := tables.submissions[id := record], nextSubmission := id + 1);
      }
    }

    method UpdateSubmission(id: nat, status: Status) returns (ok: bool)
      modifies this`tables
      ensures tables == if ok then StatusReplaced(old(tables), id, status) else old(tables)
      ensures healthy ==> ok
    {
      ok := Executes();
      if ok && id in tables.submissions {
        tables := tables.(submissions := tables.submissions[id := tables.submissions[id].(status := status)]);
      }
    }

    method FindStatus(user: nat, problem: nat) returns (ok: bool, state: StatusState)
      ensures ok ==> state == ReadStatus(tables, user, problem)
      ensures healthy ==> ok
    {
      ok := Executes();
      state := ReadStatus(tables, user, problem);
    }

    method UpsertStatus(user: nat, problem: nat, row: StatusRow) returns (ok: bool)
      modifies this`tables
      ensures tables == if ok then old(tables).(statuses := old(tables).statuses[(user, problem) := row])
                        else old(tables)
      ensures healthy ==> ok
    {
      ok := Executes();
      if ok {
        tables := tables.(statuses := tables.statuses[(user, problem) := row]);
      }
    }

    /** `SELECT COUNT(*)` over the submissions of a user for a problem. */
    method CountOf(user: nat, problem: nat) returns (ok: bool, count: nat)
      ensures ok ==> count == |IdsOf(tables, user, problem)|
      ensures healthy ==> ok
    {
      ok := Executes();
      var ids := set id | id in tables.submissions && tables.submissions[id].entry.user == user
                          && tables.submissions[id].entry.problem == problem;
      assert ids == IdsOf(tables, user, problem);
      count := |ids|;
    }

    /** `SELECT MIN(created_at)` over the accepted submissions, by a scan of the table. */
    method FirstAcOf(user: nat, problem: nat) returns (ok: bool, first: Option<string>)
      ensures ok ==> IsFirstAc(tables, user, problem, first)
      ensures healthy ==> ok
    {
      ok := Executes();
      first := None;
      var todo := tables.submissions.Keys;
      while todo != {}
        invariant todo <= tables.submissions.Keys
        invariant IsFirstAc(ScannedPart(tables, todo), user, problem, first)
        decreases |todo|
      {
        var id :| id in todo;
        var row := tables.submissions[id];
        ScanStep(tables, todo, id, user, problem, first);
        if row.entry.user == user && row.entry.problem == problem && row.status == AC {
          first := if first.None? || TextOrder.Less(row.entry.submittedAt, first.value)
                   then Some(row.entry.submittedAt) else first;
        }
        todo := todo - {id};
      }
      SameAcSameFirst(ScannedPart(tables, todo), tables, user, problem, first);
    }

    method Recompute(user: nat, problem: nat) returns (ok: bool)
      modifies this`tables
      ensures ok ==> IsRecomputed(old(tables), user, problem, tables)
      ensures !ok ==> tables == old(tables)
      ensures healthy ==> ok
    {
      ok := Executes();
      if !ok {
        return;
      }
      var count := 0;
      if (user, problem) in tables.statuses {
        count := tables.statuses[(user, problem)].submitCount;
      } else {
        ok, count := CountOf(user, problem);
        if !ok {
          return;
        }
      }
      var first;
      ok, first := FirstAcOf(user, problem);
      if !ok {
        return;
      }
      ok := UpsertStatus(user, problem, StatusRow(first.Some?, first, count));
      assert ok ==> tables == WithRecomputed(old(tables), user, problem, first);
    }

    method CountSubmissions(problem: nat) returns (ok: bool, count: nat)
      ensures ok ==> (count > 0 <==> HasSubmissions(tables, problem))
      ensures healthy ==> ok
    {
      ok := Executes();
      var ids := set id | id in tables.submissions && tables.submissions[id].entry.problem == problem;
      count := |ids|;
      assert forall id :: id in ids <==> id in tables.submissions && tables.submissions[id].entry.problem == problem;
    }

    method CountUnsettled(problem: nat) returns (ok: bool, count: nat)
      ensures ok ==> (count > 0 <==> HasUnsettled(tables, problem))
      ensures healthy ==> ok
    {
      ok := Executes();
      var tasks := set t | t in tables.inFlight && tables.inFlight[t].entry.problem == problem
                           && !tables.inFlight[t].state.Interrupted?;
      count := |tasks|;
      assert forall t :: t in tasks <==> t in tables.inFlight && tables.inFlight[t].entry.problem == problem
                                         && !tables.inFlight[t].state.Interrupted?;
    }
  }

  lemma SameAcSameFirst(before: Db, after: Db, user: nat, problem: nat, first: Option<string>)
    requires IsFirstAc(before, user, problem, first)
    requires forall i :: IsAcOf(after, i, user, problem) <==> IsAcOf(before, i, user, problem)
    requires forall i :: i in before.submissions && i in after.submissions ==>
               before.submissions[i] == after.submissions[i]
    ensures IsFirstAc(after, user, problem, first)
  {
    if first.Some? {
      var i :| IsAcOf(before, i, user, problem) && before.submissions[i].entry.submittedAt == first.value;
      assert IsAcOf(after, i, user, problem);
    }
  }

  /** The table without the rows that a scan has still to visit. */
  ghost function ScannedPart(db: Db, todo: set<nat>): Db {
    db.(submissions := db.submissions - todo)
  }

  lemma ScanStep(db: Db, todo: set<nat>, id: nat, user: nat, problem: nat, first: Option<string>)
    requires id in todo && id in db.submissions && IsFirstAc(ScannedPart(db, todo), user, problem, first)
    ensures
      var time := db.submissions[id].entry.submittedAt;
      IsFirstAc(ScannedPart(db, todo - {id}), user, problem,
                if !IsAcOf(db, id, user, problem) then first
                else if first.None? || TextOrder.Less(time, first.value) then Some(time) else first)
  {
    var before, after := ScannedPart(db, todo), ScannedPart(db, todo - {id});
    assert forall i :: i != id ==> (IsAcOf(after, i, user, problem) <==> IsAcOf(before, i, user, problem));
    if IsAcOf(db, id, user, problem) {
      MinStep(before, after, user, problem, id, first);
    } else {
      SameAcSameFirst(before, after, user, problem, first);
    }
  }

  /** One more accepted row moves the minimum to its time or leaves it. */
  lemma MinStep(before: Db, after: Db, user: nat, problem: nat, id: nat, first: Option<string>)
    requires IsFirstAc(before, user, problem, first)
    requires IsAcOf(after, id, user, problem)
    requires forall i :: i != id ==> (IsAcOf(after, i, user, problem) <==> IsAcOf(before, i, user, problem))
    requires id !in before.submissions
    requires forall i :: i in before.submissions && i in after.submissions ==>
               before.submissions[i] == after.submissions[i]
    ensures
      var time := after.submissions[id].entry.submittedAt;
      IsFirstAc(after, user, problem, if first.None? || TextOrder.Less(time, first.value) then Some(time) else first)
  {
    var time := after.submissions[id].entry.submittedAt;
    TextOrder.Irreflexive(time);
    if first.Some? {
      var i :| IsAcOf(before, i, user, problem) && before.submissions[i].entry.submittedAt == first.value;
      assert IsAcOf(after, i, user, problem);
      if TextOrder.Less(time, first.value) {
        TextOrder.Asymmetric(time, first.value);
        forall j | IsAcOf(after, j, user, problem)
          ensures TextOrder.AtMost(time, after.submissions[j].entry.submittedAt)
        {
          if j != id {
            TextOrder.AtMostTransitive(time, first.value, after.submissions[j].entry.submittedAt);
          }
        }
      }
    }
  }

  datatype PersistKind = PersistOk | PersistNotFound | PersistFailed

  /** The services of the server over one connection; the transaction mutex is held by every
      method, so no other transaction interleaves. */
  class SubmitService {
    const db: Database

    constructor (db: Database)
      ensures this.db == db
    {
      this.db := db;
    }

    /** `ids` are the ids that the generator would produce in turn. */
    method PersistInFlight(entry: Entry, now: string, ids: seq<TaskId>) returns (kind: PersistKind, task: TaskId)
      requires db.saved.None? && |ids| == 5
      modifies db
      ensures db.saved.None?
      ensures kind == PersistOk ==>
                && entry.problem in old(db.tables.problems) && IsFirstFree(old(db.tables), ids, task)
                && db.tables == Persisted(old(db.tables), task, Stamped(entry, now))
                && AddsPending(old(db.tables), db.tables, task, Stamped(entry, now))
      ensures kind == PersistNotFound ==> entry.problem !in old(db.tables.problems)
      ensures kind != PersistOk ==> db.tables == old(db.tables)
      ensures db.healthy && HasFree(old(db.tables), ids) ==> kind != PersistFailed
    {
      kind, task := PersistFailed, "";
      var ok := db.Begin();
      if !ok {
        return;
      }
      var found;
      ok, found := db.FindProblem(entry.problem);
      if !ok {
        db.Rollback();
        return;
      }
      if !found {
        db.Rollback();
        return PersistNotFound, "";
      }
      ok, task := db.InsertInFlight(Stamped(entry, now), ids);
      if !ok {
        db.Rollback();
        return;
      }
      ok := db.Commit();
      if !ok {
        db.Rollback();
        return;
      }
      kind := PersistOk;
    }

    /** Also the body of `discard_in_flight`. */
    method SettleInterrupted(task: TaskId) returns (ok: bool)
      requires db.saved.None?
      modifies db
      ensures db.saved.None?
      ensures db.tables == if ok then MarkedInterrupted(old(db.tables), task) else old(db.tables)
      ensures db.healthy ==> ok
    {
      ok := db.Begin();
      if !ok {
        return;
      }
      ok := db.MarkInterrupted(task);
      if !ok {
        db.Rollback();
        return;
      }
      ok := db.Commit();
      if !ok {
        db.Rollback();
      }
    }

    /** The persistence half of `submit`: the judge has already returned `record.status`. */
    method Submit(task: Option<TaskId>, record: Submission) returns (kind: SubmitKind)
      requires db.saved.None?
      modifies db
      ensures db.saved.None?
      ensures kind == Failed ==> db.tables == old(db.tables)
      ensures kind != Failed ==> (db.tables, kind) == SubmitTransaction(old(db.tables), task, record)
      ensures db.healthy ==> kind != Failed
    {
      var e := record.entry;
      kind := Failed;
      var ok := db.Begin();
      if !ok {
        return;
      }
      var found;
      ok, found := db.FindProblem(e.problem);
      if !ok {
        db.Rollback();
        return;
      }
      if !found {
        kind := RejectMissing(task);
        return;
      }
      if task.Some? {
        var removed;
        ok, removed := db.RemoveByTaskId(task.value);
        if !ok {
          db.Rollback();
          return;
        }
        if !removed {
          db.Rollback();
          return AlreadySettled;
        }
      }
      var id, state;
      ok, id := db.InsertSubmission(record);
      if !ok {
        db.Rollback();
        return;
      }
      ok, state := db.FindStatus(e.user, e.problem);
      if !ok {
        db.Rollback();
        return;
      }
      ok := db.UpsertStatus(e.user, e.problem, RowOf(ComputeStatusUpdate(state, record.status == AC, e.submittedAt)));
      if !ok {
        db.Rollback();
        return;
      }
      ok := db.Commit();
      if !ok {
        db.Rollback();
        return;
      }
      kind := Stored;
    }

    /** The problem went while the task was judged: keep the task, marked as interrupted. */
    method RejectMissing(task: Option<TaskId>) returns (kind: SubmitKind)
      requires db.saved.Some? && db.tables == db.saved.value
      modifies db
      ensures db.saved.None?
      ensures kind == Failed || kind == ProblemNotFound
      ensures db.healthy ==> kind != Failed
      ensures db.tables == if kind == ProblemNotFound && task.Some? then MarkedInterrupted(old(db.tables), task.value)
                           else old(db.tables)
    {
      if task.None? {
        db.Rollback();
        return ProblemNotFound;
      }
      var ok := db.MarkInterrupted(task.value);
      if !ok {
        db.Rollback();
        return Failed;
      }
      ok := db.Commit();
      if !ok {
        db.Rollback();
        return Failed;
      }
      return ProblemNotFound;
    }

    /** The second half of `rejudge`: an internal error of the judge keeps the old result. */
    method Rejudge(id: nat, original: Entry, verdict: Status) returns (kind: SubmitKind)
      requires db.saved.None?
      modifies db
      ensures db.saved.None?
      ensures verdict == SYSERR ==> kind == Failed
      ensures db.healthy && verdict != SYSERR ==>
                kind == if id in old(db.tables.submissions) then Stored else ProblemNotFound
      ensures kind == Stored ==>
                && id in old(db.tables.submissions)
                && IsRecomputed(StatusReplaced(old(db.tables), id, verdict), original.user, original.problem, db.tables)
      ensures
        var rows := old(db.tables).submissions;
        kind == Stored ==> id in rows && db.tables.submissions == rows[id := Submission(rows[id].entry, verdict)]
      ensures kind == ProblemNotFound ==> id !in old(db.tables.submissions)
      ensures kind != Stored ==> db.tables == old(db.tables)
    {
      kind := Failed;
      if verdict == SYSERR {
        return;
      }
      var ok := db.Begin();
      if !ok {
        return;
      }
      var found;
      ok, found := db.FindSubmission(id);
      if !ok {
        db.Rollback();
        return;
      }
      if !found {
        db.Rollback();
        return ProblemNotFound;
      }
      ok := db.UpdateSubmission(id, verdict);
      if !ok {
        db.Rollback();
        return;
      }
      ok := db.Recompute(original.user, original.problem);
      if !ok {
        db.Rollback();
        return;
      }
      ok := db.Commit();
      if !ok {
        db.Rollback();
        return;
      }
      kind := Stored;
    }

    /** Deletes a problem with nothing but test cases and interrupted rows behind it. */
    method RemoveProblem(problem: nat) returns (kind: DeleteKind)
      requires db.saved.None?
      modifies db
      ensures db.saved.None?
      ensures kind == DeleteFailed ==> db.tables == old(db.tables)
      ensures kind != DeleteFailed ==> (db.tables, kind) == RemoveTransaction(old(db.tables), problem)
      ensures db.healthy ==> kind != DeleteFailed
    {
      kind := DeleteFailed;
      var ok := db.Begin();
      if !ok {
        return;
      }
      var found, count;
      ok, found := db.FindProblem(problem);
      if !ok {
        db.Rollback();
        return;
      }
      if !found {
        db.Rollback();
        return NotFound;
      }
      ok, count := db.CountSubmissions(problem);
      if !ok {
        db.Rollback();
        return;
      }
      if count > 0 {
        db.Rollback();
        return HasHistory;
      }
      ok, count := db.CountUnsettled(problem);
      if !ok {
        db.Rollback();
        return;
      }
      if count > 0 {
        db.Rollback();
        return HasHistory;
      }
      ok := DeleteRows(problem);
      if !ok {
        db.Rollback();
        return;
      }
      ok := db.Commit();
      if !ok {
        db.Rollback();
        return;
      }
      kind := Deleted;
    }

    /** The four DELETE statements, of which a prefix may have run when one fails. */
    method DeleteRows(problem: nat) returns (ok: bool)
      modifies db`tables
      ensures ok ==> db.tables == Removed(old(db.tables), problem)
      ensures db.healthy ==> ok
    {
      var t := db.tables;
      for statement := 0 to 4
        invariant t == old(db.tables)
        invariant db.tables == t.(
          testcases := if statement > 0 then Removed(t, problem).testcases else t.testcases,
          statuses := if statement > 1 then Removed(t, problem).statuses else t.statuses,
          inFlight := if statement > 2 then Removed(t, problem).inFlight else t.inFlight,
          problems := if statement > 3 then Removed(t, problem).problems else t.problems)
      {
        ok := db.Executes();
        if !ok {
          return;
        }
        var now := db.tables;
        if statement == 0 {
          db.tables := now.(testcases :=
            map k | k in now.testcases && now.testcases[k].problem != problem :: now.testcases[k]);
        } else if statement == 1 {
          db.tables := now.(statuses := map k | k in now.statuses && k.1 != problem :: now.statuses[k]);
        } else if statement == 2 {
          db.tables := now.(inFlight :=
            map k | k in now.inFlight && now.inFlight[k].entry.problem != problem :: now.inFlight[k]);
        } else {
          db.tables := now.(problems := now.problems - {problem});
        }
      }
      return true;
    }
  }
}
