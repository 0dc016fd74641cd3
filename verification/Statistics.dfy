/** The materialised statistics agree with the submissions they summarise. */
module Statistics {
  import opened JudgeStatus
  import opened Options
  import opened Tables
  import TextOrder

  /** The status row as a query over `submissions` would compute it. */
  ghost predicate Summarises(db: Db, user: nat, problem: nat, row: StatusRow) {
    && row.submitCount == |IdsOf(db, user, problem)|
    && row.accepted == row.firstAcAt.Some?
    && IsFirstAc(db, user, problem, row.firstAcAt)
  }

  /** A (user, problem) has a status row iff it has submissions, and the row summarises them. */
  ghost predicate RowConsistent(db: Db, user: nat, problem: nat) {
    && ((user, problem) in db.statuses <==> IdsOf(db, user, problem) != {})
    && ((user, problem) in db.statuses ==> Summarises(db, user, problem, db.statuses[(user, problem)]))
  }

  ghost predicate Consistent(db: Db) {
    forall user: nat, problem: nat :: RowConsistent(db, user, problem)
  }

  /** Keys are below their counter, and no stored timestamp is empty. */
  ghost predicate KeysFresh(db: Db) {
    && (forall id :: id in db.submissions ==> id < db.nextSubmission)
    && (forall id :: id in db.problems ==> id < db.nextProblem)
    && (forall id :: id in db.testcases ==> id < db.nextTestcase)
    && (forall id :: id in db.users ==> id < db.nextUser)
    && (forall t :: t in db.inFlight ==> db.inFlight[t].id < db.nextRow)
    && (forall t, t' :: t in db.inFlight && t' in db.inFlight && db.inFlight[t].id == db.inFlight[t'].id ==> t == t')
  }

  ghost predicate TimesPresent(db: Db) {
    && (forall id :: id in db.submissions ==> db.submissions[id].entry.submittedAt != "")
    && (forall t :: t in db.inFlight ==> db.inFlight[t].entry.submittedAt != "")
  }

  /** The from-scratch summary is unique, so `Consistent` fixes the table completely. */
  lemma SummaryUnique(db: Db, user: nat, problem: nat, row: StatusRow, row': StatusRow)
    requires Summarises(db, user, problem, row) && Summarises(db, user, problem, row')
    ensures row == row'
  {
    FirstAcUnique(db, user, problem, row.firstAcAt, row'.firstAcAt);
  }

  lemma FirstAcUnique(db: Db, user: nat, problem: nat, first: Option<string>, first': Option<string>)
    requires IsFirstAc(db, user, problem, first) && IsFirstAc(db, user, problem, first')
    ensures first == first'
  {
    if first.Some? && first'.Some? {
      TextOrder.Total(first.value, first'.value);
    }
  }

  lemma FirstAcExists(db: Db, user: nat, problem: nat) returns (first: Option<string>)
    ensures IsFirstAc(db, user, problem, first)
  {
    var times := set id | id in db.submissions && IsAcOf(db, id, user, problem) :: db.submissions[id].entry.submittedAt;
    if times == {} {
      first := None;
      assert forall id :: IsAcOf(db, id, user, problem) ==> db.submissions[id].entry.submittedAt in times;
    } else {
      var least := TextOrder.LeastExists(times);
      first := Some(least);
      forall id | IsAcOf(db, id, user, problem)
        ensures TextOrder.AtMost(least, db.submissions[id].entry.submittedAt)
      {
        assert db.submissions[id].entry.submittedAt in times;
      }
    }
  }

  // ------------------------------------------------------------------- settlement

  /** The incremental update treats an empty text as "no time", the aggregate as a minimum. */
  ghost predicate TimeUsable(db: Db, record: Submission) {
    || record.entry.submittedAt != ""
    || record.status != AC
    || !ReadStatus(db, record.entry.user, record.entry.problem).accepted
  }

  /** The incremental update computes the summary of the extended table. */
  lemma SettledSummarises(db: Db, task: Option<TaskId>, record: Submission)
    requires Consistent(db) && KeysFresh(db) && TimesPresent(db)
    requires TimeUsable(db, record)
    ensures
      var e := record.entry;
      var db' := Settled(db, task, record);
      Summarises(db', e.user, e.problem, db'.statuses[(e.user, e.problem)])
  {
    SettledCount(db, task, record);
    SettledFirstAc(db, task, record);
    assert RowConsistent(db, record.entry.user, record.entry.problem);
  }

  lemma SettledCount(db: Db, task: Option<TaskId>, record: Submission)
    requires Consistent(db) && KeysFresh(db)
    ensures
      var e := record.entry;
      var db' := Settled(db, task, record);
      db'.statuses[(e.user, e.problem)].submitCount == |IdsOf(db', e.user, e.problem)|
  {
    var user, problem := record.entry.user, record.entry.problem;
    assert RowConsistent(db, user, problem);
    OneMoreSubmission(db, Settled(db, task, record), record);
  }

  lemma OneMoreSubmission(db: Db, db': Db, record: Submission)
    requires forall id :: id in db.submissions ==> id < db.nextSubmission
    requires db'.submissions == db.submissions[db.nextSubmission := record]
    ensures
      var user, problem := record.entry.user, record.entry.problem;
      |IdsOf(db', user, problem)| == |IdsOf(db, user, problem)| + 1
  {
    var user, problem := record.entry.user, record.entry.problem;
    var ids, ids' := IdsOf(db, user, problem), IdsOf(db', user, problem);
    forall id: nat
      ensures id in ids' <==> id in ids || id == db.nextSubmission
    {
    }
    assert ids' == ids + {db.nextSubmission};
  }

  lemma SettledFirstAc(db: Db, task: Option<TaskId>, record: Submission)
    requires Consistent(db) && KeysFresh(db) && TimesPresent(db)
    requires TimeUsable(db, record)
    ensures
      var e := record.entry;
      var db' := Settled(db, task, record);
      IsFirstAc(db', e.user, e.problem, db'.statuses[(e.user, e.problem)].firstAcAt)
  {
    var user, problem, time := record.entry.user, record.entry.problem, record.entry.submittedAt;
    var db' := Settled(db, task, record);
    var id := db.nextSubmission;
    var first' := db'.statuses[(user, problem)].firstAcAt;
    var known := (user, problem) in db.statuses;
    var first := if known then db.statuses[(user, problem)].firstAcAt else None;
    assert RowConsistent(db, user, problem);
    if !known {
      assert forall i :: IsOf(db, i, user, problem) ==> i in IdsOf(db, user, problem);
    }
    assert IsFirstAc(db, user, problem, first);
    assert forall i :: i != id ==> (IsAcOf(db', i, user, problem) <==> IsAcOf(db, i, user, problem));
    TextOrder.Irreflexive(time);
    if first.None? {
      if record.status == AC {
        assert IsAcOf(db', id, user, problem);
      }
    } else {
      var i :| IsAcOf(db, i, user, problem) && db.submissions[i].entry.submittedAt == first.value;
      assert first.value != "";
      assert IsAcOf(db', i, user, problem);
      if record.status == AC && TextOrder.Less(time, first.value) {
        assert first' == Some(time);
        assert IsAcOf(db', id, user, problem);
        forall j | IsAcOf(db', j, user, problem)
          ensures TextOrder.AtMost(time, db'.submissions[j].entry.submittedAt)
        {
          if j != id {
            TextOrder.Asymmetric(time, first.value);
            TextOrder.AtMostTransitive(time, first.value, db'.submissions[j].entry.submittedAt);
          }
        }
      }
    }
  }

  /** A (user, problem) whose submissions did not change keeps its summary. */
  lemma SameSubmissionsSameSummary(db: Db, db': Db, user: nat, problem: nat)
    requires forall id :: IsOf(db, id, user, problem) <==> IsOf(db', id, user, problem)
    requires forall id :: IsOf(db, id, user, problem) && id in db'.submissions ==>
               db.submissions[id] == db'.submissions[id]
    ensures IdsOf(db, user, problem) == IdsOf(db', user, problem)
    ensures forall row :: Summarises(db, user, problem, row) ==> Summarises(db', user, problem, row)
  {
    forall row: StatusRow | Summarises(db, user, problem, row)
      ensures IsFirstAc(db', user, problem, row.firstAcAt)
    {
      assert forall id :: IsAcOf(db, id, user, problem) <==> IsAcOf(db', id, user, problem);
      if row.firstAcAt.Some? {
        var i :| IsAcOf(db, i, user, problem) && db.submissions[i].entry.submittedAt == row.firstAcAt.value;
        assert IsAcOf(db', i, user, problem);
      }
    }
  }

  lemma SettledConsistent(db: Db, task: Option<TaskId>, record: Submission)
    requires Consistent(db) && KeysFresh(db) && TimesPresent(db)
    requires TimeUsable(db, record)
    ensures Consistent(Settled(db, task, record))
  {
    var db' := Settled(db, task, record);
    var e := record.entry;
    SettledSummarises(db, task, record);
    assert db.nextSubmission in IdsOf(db', e.user, e.problem);
    forall user: nat, problem: nat | (user, problem) != (e.user, e.problem)
      ensures RowConsistent(db', user, problem)
    {
      assert RowConsistent(db, user, problem);
      SameSubmissionsSameSummary(db, db', user, problem);
    }
  }

  // --------------------------------------------------------------------- rejudge

  lemma RejudgedConsistent(db: Db, id: nat, status: Status, db': Db)
    requires Consistent(db)
    requires id in db.submissions
    requires
      var e := db.submissions[id].entry;
      IsRecomputed(StatusReplaced(db, id, status), e.user, e.problem, db')
    ensures Consistent(db')
  {
    var e := db.submissions[id].entry;
    var mid := StatusReplaced(db, id, status);
    var first :| IsFirstAc(mid, e.user, e.problem, first) && db' == WithRecomputed(mid, e.user, e.problem, first);
    assert RowConsistent(db, e.user, e.problem);
    assert IdsOf(mid, e.user, e.problem) == IdsOf(db, e.user, e.problem);
    assert id in IdsOf(db, e.user, e.problem);
    SameSubmissionsSameSummary(mid, db', e.user, e.problem);
    assert Summarises(mid, e.user, e.problem, db'.statuses[(e.user, e.problem)]);
    forall user: nat, problem: nat | (user, problem) != (e.user, e.problem)
      ensures RowConsistent(db', user, problem)
    {
      assert RowConsistent(db, user, problem);
      SameSubmissionsSameSummary(db, db', user, problem);
    }
  }

  // ------------------------------------------------- transactions that leave it alone

  lemma UntouchedConsistent(db: Db, db': Db)
    requires Consistent(db)
    requires db'.submissions == db.submissions && db'.statuses == db.statuses
    ensures Consistent(db')
  {
    forall user: nat, problem: nat
      ensures RowConsistent(db', user, problem)
    {
      assert RowConsistent(db, user, problem);
      SameSubmissionsSameSummary(db, db', user, problem);
    }
  }

  /** Deleting a problem without submissions deletes no status row. */
  lemma RemovedConsistent(db: Db, problem: nat)
    requires Consistent(db)
    requires !HasSubmissions(db, problem)
    ensures Consistent(Removed(db, problem))
    ensures Removed(db, problem).statuses == db.statuses
  {
    forall k | k in db.statuses
      ensures k.1 != problem
    {
      assert RowConsistent(db, k.0, k.1);
      var id :| id in IdsOf(db, k.0, k.1);
    }
    assert Removed(db, problem).statuses == db.statuses;
    UntouchedConsistent(db, Removed(db, problem));
  }

  /** The incremental update agrees with the from-scratch summary exactly when the time is
      usable; the service stores no empty time, so it always is. */
  lemma SettledConsistentIff(db: Db, task: Option<TaskId>, record: Submission)
    requires Consistent(db) && KeysFresh(db) && TimesPresent(db)
    ensures Consistent(Settled(db, task, record)) <==> TimeUsable(db, record)
  {
    if TimeUsable(db, record) {
      SettledConsistent(db, task, record);
    } else {
      var user, problem := record.entry.user, record.entry.problem;
      var db' := Settled(db, task, record);
      assert RowConsistent(db, user, problem);
      var i :| IsAcOf(db, i, user, problem);
      assert db'.statuses[(user, problem)].firstAcAt == db.statuses[(user, problem)].firstAcAt;
      assert IsAcOf(db', db.nextSubmission, user, problem);
      assert !RowConsistent(db', user, problem);
    }
  }
}
