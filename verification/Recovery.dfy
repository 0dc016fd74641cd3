/** Startup recovery: pending in-flight rows are read in batches, claimed one by one and
    handed to the scheduler. Other actors run meanwhile: workers settle rows that were handed
    over, and rows of the tasks in `others` may be interrupted, settled or deleted at any moment. */
module Recovery {
  import opened Options
  import opened Tables
  import opened Services
  import Lifecycle

  type Rows = map<TaskId, InFlightRow>

  /** A row as it is read from the table and handed to the scheduler. */
  datatype Handed = Handed(id: nat, task: TaskId, entry: Entry)

  datatype Slot = Granted | SchedulerStopped | Aborted | ClaimFailed

  datatype End = Completed | GaveUp

  predicate IsPending(rows: Rows, t: TaskId) {
    t in rows && rows[t].state.Pending?
  }

  predicate IsClaimed(rows: Rows, t: TaskId) {
    t in rows && rows[t].state.Claimed?
  }

  function PendingTasks(rows: Rows): set<TaskId> {
    set t | t in rows && IsPending(rows, t)
  }

  /** The rows a run has to hand over: pending ones, and with `reset` the stale claims. */
  predicate Recoverable(rows: Rows, reset: bool, t: TaskId) {
    t in rows && (rows[t].state.Pending? || (reset && rows[t].state.Claimed?))
  }

  /** The primary key. */
  ghost predicate UniqueIds(rows: Rows) {
    forall t, t' :: t in rows && t' in rows && rows[t].id == rows[t'].id ==> t == t'
  }

  function HandedFrom(rows: Rows, t: TaskId): Handed
    requires t in rows
  {
    Handed(rows[t].id, t, rows[t].entry)
  }

  ghost predicate Ascending(handed: seq<Handed>) {
    forall i, j :: 0 <= i < j < |handed| ==> handed[i].id < handed[j].id
  }

  ghost function Tasks(handed: seq<Handed>): set<TaskId> {
    set k | 0 <= k < |handed| :: handed[k].task
  }

  ghost predicate Reads(rows: Rows, h: Handed) {
    IsPending(rows, h.task) && h == HandedFrom(rows, h.task)
  }

  /** The first `limit` pending rows in the order of their ids. */
  ghost predicate IsBatch(rows: Rows, limit: nat, batch: seq<Handed>) {
    && Ascending(batch) && |batch| <= limit
    && (forall k :: 0 <= k < |batch| ==> Reads(rows, batch[k]))
    && (forall t :: IsPending(rows, t) && t !in Tasks(batch) ==> |batch| == limit && AllBefore(batch, rows[t].id))
  }

  ghost predicate AllBefore(handed: seq<Handed>, id: nat) {
    forall k :: 0 <= k < |handed| ==> handed[k].id < id
  }

  method LeastOf(rows: Rows, tasks: set<TaskId>) returns (least: TaskId)
    requires tasks != {} && tasks <= rows.Keys
    ensures least in tasks && forall t :: t in tasks ==> rows[least].id <= rows[t].id
  {
    least :| least in tasks;
    var todo := tasks - {least};
    while todo != {}
      invariant todo <= tasks && least in tasks
      invariant forall t :: t in tasks && t !in todo ==> rows[least].id <= rows[t].id
      decreases |todo|
    {
      var t :| t in todo;
      if rows[t].id < rows[least].id {
        least := t;
      }
      todo := todo - {t};
    }
  }

  /** The statements of the recovery, each its own transaction on the shared connection. */
  class InFlightStore {
    const db: Database

    constructor (db: Database)
      ensures this.db == db
    {
      this.db := db;
    }

    method ResetStaleClaims() returns (ok: bool)
      modifies db`tables
      ensures db.tables == if ok then ClaimsReset(old(db.tables)) else old(db.tables)
      ensures db.healthy ==> ok
    {
      ok := db.Executes();
      if ok {
        var rows := db.tables.inFlight;
        var todo := set t | t in rows && rows[t].state.Claimed?;
        var reset := rows;
        while todo != {}
          invariant reset.Keys == rows.Keys && todo <= rows.Keys && forall t :: t in todo ==> rows[t].state.Claimed?
          invariant forall t :: t in rows ==> reset[t] == ResetUnless(rows, todo, t)
          decreases |todo|
        {
          var t :| t in todo;
          reset := reset[t := rows[t].(state := Pending)];
          todo := todo - {t};
        }
        assert reset == ClaimsReset(db.tables).inFlight;
        db.tables := db.tables.(inFlight := reset);
      }
    }

    /** `SELECT ... WHERE state = 'pending' ORDER BY id ASC LIMIT ?`. */
    method ListPending(limit: nat) returns (ok: bool, batch: seq<Handed>)
      requires UniqueIds(db.tables.inFlight)
      ensures ok ==> IsBatch(db.tables.inFlight, limit, batch)
      ensures db.healthy ==> ok
    {
      ok := db.Executes();
      batch := [];
      var rows := db.tables.inFlight;
      var todo := PendingTasks(rows);
      while |batch| < limit && todo != {}
        invariant |batch| <= limit && Listing(rows, batch, todo)
        decreases |todo|
      {
        var least := LeastOf(rows, todo);
        ListedOneMore(rows, batch, todo, least);
        batch := batch + [HandedFrom(rows, least)];
        todo := todo - {least};
      }
    }

    /** `UPDATE ... SET state = 'claimed' WHERE id = ? AND state = 'pending' RETURNING id`. */
    method Claim(id: nat) returns (ok: bool, claimed: bool)
      requires UniqueIds(db.tables.inFlight)
      modifies db`tables
      ensures db.tables == if ok then ClaimedRow(old(db.tables), id) else old(db.tables)
      ensures
        var rows := old(db.tables).inFlight;
        ok ==> (claimed <==> exists t :: IsPending(rows, t) && rows[t].id == id)
      ensures db.healthy ==> ok
    {
      ok := db.Executes();
      claimed := false;
      if ok {
        var rows := db.tables.inFlight;
        var hits := set t | t in rows && rows[t].id == id && rows[t].state.Pending?;
        assert forall t :: t in hits <==> IsPending(rows, t) && rows[t].id == id;
        if hits != {} {
          var t :| t in hits;
          ClaimedOne(db.tables, t);
          db.tables := db.tables.(inFlight := rows[t := rows[t].(state := Claimed)]);
          claimed := true;
        } else {
          ClaimedNone(db.tables, id);
        }
      }
    }

    /** Anything the rest of the server does between two statements of the recovery. */
    method Interfere(others: set<TaskId>)
      modifies db`tables
      ensures Interferes(old(db.tables).inFlight, db.tables.inFlight, others)
    {
      var settled: set<TaskId>, deleted: set<TaskId>, interrupted: set<TaskId>, rest: Db := *, *, *, *;
      var rows := db.tables.inFlight;
      db.tables := rest.(inFlight :=
        map t | t in rows && !(t in settled && rows[t].state.Claimed?) && !(t in deleted && t in others)
          :: if t in interrupted && t in others then rows[t].(state := Interrupted) else rows[t]);
    }
  }

  /** The pending rows are those of `batch`, in order, and after them those of `todo`. */
  ghost predicate Listing(rows: Rows, batch: seq<Handed>, todo: set<TaskId>) {
    && todo <= rows.Keys && Ascending(batch)
    && (forall k :: 0 <= k < |batch| ==> Reads(rows, batch[k]))
    && (forall t :: IsPending(rows, t) <==> t in Tasks(batch) || t in todo)
    && (forall t :: t in todo ==> AllBefore(batch, rows[t].id))
  }

  lemma ListedOneMore(rows: Rows, batch: seq<Handed>, todo: set<TaskId>, least: TaskId)
    requires UniqueIds(rows) && Listing(rows, batch, todo) && least in todo
    requires forall t :: t in todo ==> rows[least].id <= rows[t].id
    ensures Listing(rows, batch + [HandedFrom(rows, least)], todo - {least})
  {
    var h := HandedFrom(rows, least);
    var more := batch + [h];
    TasksGrow(batch, h);
    assert Reads(rows, h) && AllBefore(batch, h.id);
    forall t | t in todo - {least}
      ensures AllBefore(more, rows[t].id)
    {
      assert AllBefore(batch, rows[t].id) && rows[least].id != rows[t].id;
    }
  }

  /** A row while the claims of `todo` are still to be reset. */
  function ResetUnless(rows: Rows, todo: set<TaskId>, t: TaskId): InFlightRow
    requires t in rows
  {
    if rows[t].state.Claimed? && t !in todo then rows[t].(state := Pending) else rows[t]
  }

  lemma TasksGrow(handed: seq<Handed>, h: Handed)
    ensures Tasks(handed + [h]) == Tasks(handed) + {h.task}
  {
    var more := handed + [h];
    assert more[|handed|] == h;
    forall t | t in Tasks(handed)
      ensures t in Tasks(more)
    {
      var k :| 0 <= k < |handed| && handed[k].task == t;
      assert more[k].task == t;
    }
  }

  /** A claim changes the one row that it names. */
  lemma ClaimedOne(db: Db, t: TaskId)
    requires UniqueIds(db.inFlight) && IsPending(db.inFlight, t)
    ensures ClaimedRow(db, db.inFlight[t].id) == db.(inFlight := db.inFlight[t := db.inFlight[t].(state := Claimed)])
  {
    assert ClaimedRow(db, db.inFlight[t].id).inFlight == db.inFlight[t := db.inFlight[t].(state := Claimed)];
  }

  lemma ClaimedNone(db: Db, id: nat)
    requires forall t :: IsPending(db.inFlight, t) ==> db.inFlight[t].id != id
    ensures ClaimedRow(db, id) == db
  {
    assert ClaimedRow(db, id).inFlight == db.inFlight;
  }

  // ---------------------------------------------------------------------- interference

  /** No row appears or becomes pending again; a row outside `others` that is not claimed stays. */
  ghost predicate Interferes(rows: Rows, rows': Rows, others: set<TaskId>) {
    && (forall t :: t in rows' ==> t in rows && rows'[t] == rows[t].(state := rows'[t].state))
    && (forall t :: IsPending(rows', t) ==> IsPending(rows, t))
    && (forall t :: t in rows && t !in others && !rows[t].state.Claimed? ==> t in rows' && rows'[t] == rows[t])
  }

  /** The steps of the server that are not the recovery's own, and add nothing to recover. */
  predicate IsBystander(step: Lifecycle.Step) {
    && !step.Persist? && !step.ClaimRow? && !step.LoseClaim? && !step.ResetClaims?
  }

  /** The tasks whose row a step may end or interrupt. */
  ghost function Touched(s: Lifecycle.System, step: Lifecycle.Step): set<TaskId> {
    match step
    case Settle(job, _, _) => if job.task.Some? then {job.task.value} else {}
    case FindProblemMissing(job) => if job.task.Some? then {job.task.value} else {}
    case Discard(task) => {task}
    case RemoveProblem(problem) => set t | t in s.db.inFlight && s.db.inFlight[t].entry.problem == problem
    case _ => {}
  }

  /** What `Interfere` allows covers every step of the rest of the server. */
  lemma StepInterferes(s: Lifecycle.System, step: Lifecycle.Step)
    requires Lifecycle.Enabled(s, step) && IsBystander(step)
    ensures Interferes(s.db.inFlight, Lifecycle.Apply(s, step).db.inFlight, Touched(s, step))
  {
    match step
    case Settle(job, verdict, now) =>
      SettleInterferes(s, job, Submission(Stamped(job.entry, now), verdict));
    case RemoveProblem(_) =>
    case FindProblemMissing(_) =>
    case Discard(_) =>
    case _ => BystanderLeavesRows(s, step);
  }

  /** And every run of such steps, however many come between two statements. */
  lemma {:induction false} RunInterferes(s: Lifecycle.System, steps: seq<Lifecycle.Step>, s': Lifecycle.System)
    returns (others: set<TaskId>)
    requires Lifecycle.IsRun(s, steps, s') && forall k :: 0 <= k < |steps| ==> IsBystander(steps[k])
    ensures others == TouchedIn(s, steps, s') && Interferes(s.db.inFlight, s'.db.inFlight, others)
    decreases |steps|
  {
    if steps == [] {
      others := {};
    } else {
      var mid := Lifecycle.Apply(s, steps[0]);
      StepInterferes(s, steps[0]);
      var rest := RunInterferes(mid, steps[1..], s');
      others := Touched(s, steps[0]) + rest;
      InterferenceComposes(s.db.inFlight, mid.db.inFlight, s'.db.inFlight, Touched(s, steps[0]), rest);
    }
  }

  /** The tasks that the steps of a run touch. */
  ghost function TouchedIn(s: Lifecycle.System, steps: seq<Lifecycle.Step>, s': Lifecycle.System): set<TaskId>
    requires Lifecycle.IsRun(s, steps, s')
    decreases |steps|
  {
    if steps == [] then {}
    else Touched(s, steps[0]) + TouchedIn(Lifecycle.Apply(s, steps[0]), steps[1..], s')
  }

  lemma InterferenceComposes(rows: Rows, mid: Rows, rows': Rows, others: set<TaskId>, others': set<TaskId>)
    requires Interferes(rows, mid, others) && Interferes(mid, rows', others')
    ensures Interferes(rows, rows', others + others')
  {
  }

  lemma SettleInterferes(s: Lifecycle.System, job: Lifecycle.Job, record: Submission)
    ensures Interferes(s.db.inFlight, Lifecycle.AfterSettle(s, job, record).db.inFlight,
                       if job.task.Some? then {job.task.value} else {})
  {
    var rows, rows' := s.db.inFlight, Lifecycle.AfterSettle(s, job, record).db.inFlight;
    if job.task.Some? {
      var t := job.task.value;
      DropInterferes(rows, t);
      InterruptInterferes(rows, t);
      assert rows' == rows || rows' == rows - {t} || (t in rows && rows' == rows[t := rows[t].(state := Interrupted)]);
    } else {
      assert rows' == rows;
    }
  }

  lemma DropInterferes(rows: Rows, t: TaskId)
    ensures Interferes(rows, rows - {t}, {t})
  {
  }

  lemma InterruptInterferes(rows: Rows, t: TaskId)
    ensures Interferes(rows, rows, {t})
    ensures t in rows ==> Interferes(rows, rows[t := rows[t].(state := Interrupted)], {t})
  {
  }

  lemma BystanderLeavesRows(s: Lifecycle.System, step: Lifecycle.Step)
    requires Lifecycle.Enabled(s, step) && IsBystander(step)
    requires !step.Settle? && !step.RemoveProblem? && !step.FindProblemMissing? && !step.Discard?
    ensures Lifecycle.Apply(s, step).db.inFlight == s.db.inFlight
  {
    match step
    case CreateProblem(data, samples) =>
      Lifecycle.SamplesLeaveRest(
        s.db.(problems := s.db.problems[s.db.nextProblem := data], nextProblem := s.db.nextProblem + 1),
        s.db.nextProblem, samples);
    case UpdateProblem(p, data, samples) =>
      if samples.Some? {
        Lifecycle.SamplesLeaveRest(DropSamples(s.db.(problems := s.db.problems[p := data]), p), p, samples.value);
      }
    case _ =>
  }

  /** A claimed row that is handed over is a claim step and an enqueue step of the server. */
  lemma HandOverIsEnqueue(s: Lifecycle.System, t: TaskId)
    requires Lifecycle.History(s) && t in s.db.inFlight
    ensures
      var h := HandedFrom(s.db.inFlight, t);
      var claimed := s.(db := ClaimedRow(s.db, h.id));
      && Lifecycle.Enabled(s, Lifecycle.ClaimRow(h.id)) && Lifecycle.Apply(s, Lifecycle.ClaimRow(h.id)) == claimed
      && Lifecycle.Enabled(claimed, Lifecycle.Enqueue(t))
      && Lifecycle.Apply(claimed, Lifecycle.Enqueue(t))
           == claimed.(held := s.held + {Lifecycle.Job(Some(h.task), h.entry)})
  {
    assert t in s.issued.Keys;
    assert s.db.inFlight[t].entry == s.issued[t];
  }

  // -------------------------------------------------------------------------- progress

  /** What has been handed over so far, and what is left, against the table at the start. */
  ghost predicate Progress(start: Rows, others: set<TaskId>, rows: Rows, handed: seq<Handed>) {
    && (forall t :: t in rows ==> t in start && rows[t] == start[t].(state := rows[t].state))
    && (forall t :: IsPending(rows, t) ==> IsPending(start, t))
    && (forall k :: 0 <= k < |handed| ==> Reads(start, handed[k]))
    && Ascending(handed)
    && (forall t :: IsPending(rows, t) ==> AllBefore(handed, rows[t].id))
    && (forall t :: IsPending(start, t) && t !in others ==> IsPending(rows, t) || t in Tasks(handed))
  }

  lemma InterferenceKeepsProgress(start: Rows, others: set<TaskId>, rows: Rows, rows': Rows, handed: seq<Handed>)
    requires Progress(start, others, rows, handed) && Interferes(rows, rows', others)
    ensures Progress(start, others, rows', handed)
  {
  }

  lemma ClaimKeepsProgress(start: Rows, others: set<TaskId>, rows: Rows, t: TaskId, handed: seq<Handed>)
    requires UniqueIds(start) && Progress(start, others, rows, handed) && IsPending(rows, t)
    requires forall other :: IsPending(rows, other) ==> rows[t].id <= rows[other].id
    ensures Progress(start, others, rows[t := rows[t].(state := Claimed)], handed + [HandedFrom(rows, t)])
  {
    var h := HandedFrom(rows, t);
    var more, rows' := handed + [h], rows[t := rows[t].(state := Claimed)];
    TasksGrow(handed, h);
    assert Reads(start, h);
    assert AllBefore(handed, h.id);
    forall other | IsPending(rows', other)
      ensures AllBefore(more, rows'[other].id)
    {
      assert IsPending(rows, other) && AllBefore(handed, rows[other].id);
    }
  }

  /** `undisturbed` says that nobody aborts the recovery or stops the scheduler meanwhile. */
  class RecoveryService {
    const store: InFlightStore
    const undisturbed: bool

    constructor (store: InFlightStore, undisturbed: bool)
      ensures this.store == store && this.undisturbed == undisturbed
    {
      this.store, this.undisturbed := store, undisturbed;
    }

    /** Asks for a slot until the queue is no longer full, or until it is aborted. The queue is
        full finitely often, but nobody knows how often. */
    method AwaitSlot() returns (slot: Slot)
      ensures undisturbed ==> slot == Granted
      ensures slot != ClaimFailed
    {
      var full: nat := *;
      while full > 0
        decreases full
      {
        var aborted := AbortRequested();
        if aborted {
          return Aborted;
        }
        full := full - 1;
      }
      var stopped: bool := *;
      return if stopped && !undisturbed then SchedulerStopped else Granted;
    }

    method AbortRequested() returns (aborted: bool)
      ensures undisturbed ==> !aborted
    {
      aborted := *;
      aborted := aborted && !undisturbed;
    }

    /** One row: wait for a slot, claim it and hand it over; others run before. */
    method HandOverOne(h: Handed, others: set<TaskId>, already: seq<Handed>, ghost start: Rows)
      returns (handed: seq<Handed>, slot: Slot)
      requires UniqueIds(start) && Progress(start, others, store.db.tables.inFlight, already) && Reads(start, h)
      requires forall t :: IsPending(store.db.tables.inFlight, t) ==> h.id <= store.db.tables.inFlight[t].id
      modifies store.db`tables
      ensures Progress(start, others, store.db.tables.inFlight, handed)
      ensures PendingTasks(store.db.tables.inFlight) <= PendingTasks(old(store.db.tables).inFlight)
      ensures slot == Granted ==> !IsPending(store.db.tables.inFlight, h.task)
      ensures handed == already || (handed == already + [h] && slot == Granted)
      ensures handed != already ==> IsClaimed(store.db.tables.inFlight, h.task)
      ensures store.db.healthy && undisturbed ==> slot == Granted
    {
      handed := already;
      ghost var was := store.db.tables.inFlight;
      store.Interfere(others);
      InterferenceKeepsProgress(start, others, was, store.db.tables.inFlight, already);
      slot := AwaitSlot();
      if slot != Granted {
        return;
      }
      ghost var unclaimed := store.db.tables;
      UniqueStill(start, others, unclaimed.inFlight, already);
      var ok, claimed := store.Claim(h.id);
      if !ok {
        return handed, ClaimFailed;
      }
      ClaimHits(start, others, unclaimed, h, already);
      if claimed {
        ClaimKeepsProgress(start, others, unclaimed.inFlight, h.task, already);
        handed := handed + [h];
      }
    }

    /** One pass over a batch; `handed` grows by the rows that could be claimed. */
    method HandOver(batch: seq<Handed>, others: set<TaskId>, already: seq<Handed>, ghost start: Rows)
      returns (handed: seq<Handed>, slot: Slot)
      requires UniqueIds(start) && Progress(start, others, store.db.tables.inFlight, already)
      requires exists limit: nat :: IsBatch(store.db.tables.inFlight, limit, batch)
      modifies store.db`tables
      ensures Progress(start, others, store.db.tables.inFlight, handed)
      ensures PendingTasks(store.db.tables.inFlight) <= PendingTasks(old(store.db.tables).inFlight)
      ensures slot == Granted ==> forall k :: 0 <= k < |batch| ==> !IsPending(store.db.tables.inFlight, batch[k].task)
      ensures store.db.healthy && undisturbed ==> slot == Granted
    {
      handed, slot := already, Granted;
      for i := 0 to |batch|
        invariant Progress(start, others, store.db.tables.inFlight, handed)
        invariant PendingTasks(store.db.tables.inFlight) <= PendingTasks(old(store.db.tables).inFlight)
        invariant forall k :: 0 <= k < i ==> !IsPending(store.db.tables.inFlight, batch[k].task)
        invariant slot == Granted
      {
        NextIsLeast(start, others, old(store.db.tables).inFlight, already, store.db.tables.inFlight, handed, batch, i);
        ghost var before := store.db.tables.inFlight;
        handed, slot := HandOverOne(batch[i], others, handed, start);
        assert forall t :: !IsPending(before, t) ==>
                 t !in PendingTasks(before) && t !in PendingTasks(store.db.tables.inFlight);
        if slot != Granted {
          return;
        }
      }
    }

    /** Hands over every recoverable row in id order, each once and with the entry it was
        accepted with, for any batch size. When it stops early the rows it did not reach are
        still in the table as they were, and come after everything it handed over. */
    method Run(batchSize: int, reset: bool, others: set<TaskId>) returns (handed: seq<Handed>, end: End)
      requires UniqueIds(store.db.tables.inFlight)
      modifies store.db`tables
      ensures InOrder(old(store.db.tables).inFlight, reset, handed)
      ensures store.db.healthy && undisturbed ==> end == Completed
      ensures end == Completed ==> Complete(old(store.db.tables).inFlight, reset, others, handed)
      ensures RestKept(old(store.db.tables).inFlight, reset, others, handed, store.db.tables.inFlight)
    {
      handed, end := [], GaveUp;
      if reset {
        var ok := store.ResetStaleClaims();
        if !ok {
          return;
        }
      }
      ghost var start := store.db.tables.inFlight;
      var limit: nat := if batchSize > 0 then batchSize else 1;
      var aborted := AbortRequested();
      while !aborted && end == GaveUp
        invariant Progress(start, others, store.db.tables.inFlight, handed)
        invariant end == Completed ==> PendingTasks(store.db.tables.inFlight) == {}
        invariant store.db.healthy && undisturbed ==> !aborted
        decreases |PendingTasks(store.db.tables.inFlight)|, !aborted && end == GaveUp
      {
        UniqueStill(start, others, store.db.tables.inFlight, handed);
        var ok, batch := store.ListPending(limit);
        if !ok {
          aborted := true;
        } else if batch == [] {
          NothingListed(store.db.tables.inFlight, limit);
          end := Completed;
        } else {
          ghost var before := PendingTasks(store.db.tables.inFlight);
          assert Reads(store.db.tables.inFlight, batch[0]) && batch[0].task in before;
          var slot;
          handed, slot := HandOver(batch, others, handed, start);
          aborted := slot != Granted;
          if !aborted {
            aborted := AbortRequested();
          }
          SmallerSet(PendingTasks(store.db.tables.inFlight), before);
        }
      }
      Report(old(store.db.tables).inFlight, reset, start, others, store.db.tables.inFlight, handed, end);
    }
  }

  lemma UniqueStill(start: Rows, others: set<TaskId>, rows: Rows, handed: seq<Handed>)
    requires UniqueIds(start) && Progress(start, others, rows, handed)
    ensures UniqueIds(rows)
  {
  }

  /** A claim by the id that was read hits the row that was read, if anything. */
  lemma ClaimHits(start: Rows, others: set<TaskId>, db: Db, h: Handed, handed: seq<Handed>)
    requires UniqueIds(start) && Progress(start, others, db.inFlight, handed) && Reads(start, h)
    ensures (exists t :: IsPending(db.inFlight, t) && db.inFlight[t].id == h.id) <==> IsPending(db.inFlight, h.task)
    ensures IsPending(db.inFlight, h.task) ==>
              && h == HandedFrom(db.inFlight, h.task)
              && ClaimedRow(db, h.id).inFlight == db.inFlight[h.task := db.inFlight[h.task].(state := Claimed)]
    ensures !IsPending(db.inFlight, h.task) ==> ClaimedRow(db, h.id) == db
  {
    UniqueStill(start, others, db.inFlight, handed);
    assert forall t :: IsPending(db.inFlight, t) && db.inFlight[t].id == h.id ==> t == h.task;
    if IsPending(db.inFlight, h.task) {
      ClaimedOne(db, h.task);
    } else {
      ClaimedNone(db, h.id);
    }
  }

  /** The next row of a batch has the least id of the pending ones. */
  lemma NextIsLeast(start: Rows, others: set<TaskId>, listed: Rows, already: seq<Handed>, rows: Rows,
                    handed: seq<Handed>, batch: seq<Handed>, i: nat)
    requires exists limit: nat :: IsBatch(listed, limit, batch)
    requires Progress(start, others, listed, already) && Progress(start, others, rows, handed)
    requires i < |batch| && PendingTasks(rows) <= PendingTasks(listed)
    requires forall k :: 0 <= k < i ==> !IsPending(rows, batch[k].task)
    ensures Reads(start, batch[i])
    ensures forall t :: IsPending(rows, t) ==> batch[i].id <= rows[t].id
  {
    var limit: nat :| IsBatch(listed, limit, batch);
    assert Reads(listed, batch[i]);
    forall t | IsPending(rows, t)
      ensures batch[i].id <= rows[t].id
    {
      assert t in PendingTasks(rows) && IsPending(listed, t) && rows[t].id == listed[t].id;
      if t in Tasks(batch) {
        var k :| 0 <= k < |batch| && batch[k].task == t;
        assert Reads(listed, batch[k]);
      } else {
        assert AllBefore(batch, listed[t].id);
      }
    }
  }

  lemma NothingListed(rows: Rows, limit: nat)
    requires limit > 0 && IsBatch(rows, limit, [])
    ensures PendingTasks(rows) == {}
  {
    assert Tasks([]) == {};
  }

  /** Each handed task is a recoverable row with its own task id and entry, in id order. */
  ghost predicate InOrder(rows: Rows, reset: bool, handed: seq<Handed>) {
    && Ascending(handed)
    && forall k :: 0 <= k < |handed| ==>
         Recoverable(rows, reset, handed[k].task) && handed[k] == HandedFrom(rows, handed[k].task)
  }

  ghost predicate Complete(rows: Rows, reset: bool, others: set<TaskId>, handed: seq<Handed>) {
    forall t :: Recoverable(rows, reset, t) && t !in others ==> t in Tasks(handed)
  }

  ghost predicate RestKept(rows: Rows, reset: bool, others: set<TaskId>, handed: seq<Handed>, rows': Rows) {
    forall t :: Recoverable(rows, reset, t) && t !in others && t !in Tasks(handed) ==>
      && t in rows'
      && (rows'[t] == rows[t] || rows'[t] == rows[t].(state := Pending))
      && AllBefore(handed, rows[t].id)
  }

  lemma Report(rows: Rows, reset: bool, start: Rows, others: set<TaskId>, rows': Rows, handed: seq<Handed>, end: End)
    requires start.Keys == rows.Keys
    requires forall t :: t in rows ==>
               start[t] == if reset && rows[t].state.Claimed? then rows[t].(state := Pending) else rows[t]
    requires Progress(start, others, rows', handed)
    requires end == Completed ==> PendingTasks(rows') == {}
    ensures InOrder(rows, reset, handed)
    ensures end == Completed ==> Complete(rows, reset, others, handed)
    ensures RestKept(rows, reset, others, handed, rows')
  {
    assert forall t :: Recoverable(rows, reset, t) <==> IsPending(start, t);
    assert forall t :: IsPending(rows', t) <==> t in PendingTasks(rows');
    forall k | 0 <= k < |handed|
      ensures Recoverable(rows, reset, handed[k].task) && handed[k] == HandedFrom(rows, handed[k].task)
    {
      assert Reads(start, handed[k]);
    }
  }

  lemma SmallerSet(a: set<TaskId>, b: set<TaskId>)
    requires a <= b
    ensures |a| <= |b|
    ensures a != b ==> |a| < |b|
  {
    assert b == a + (b - a);
  }
}
