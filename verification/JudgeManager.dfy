/** The scheduler: a bounded queue with reservations, cancellation and drain. `Core` is what
    the mutex protects; every critical section is one function on it. `Scheduler` adds the
    threads around it: clients with reservations and workers between their critical sections. */
module JudgeManager {
  import opened Options

  type Item = nat

  datatype EnqueueStatus = Accepted | QueueFull | Stopped

  /** `cancelled` holds the items whose cancellation token is set. */
  datatype Core = Core(
    capacity: nat,
    queue: seq<Item>,
    reserved: nat,
    active: set<Item>,
    cancelled: set<Item>,
    stopped: bool,
    workersStop: bool)

  // ------------------------------------------------------------- critical sections

  function Admission(c: Core): EnqueueStatus {
    if c.stopped then Stopped
    else if |c.queue| + c.reserved >= c.capacity then QueueFull
    else Accepted
  }

  /** A task is refused exactly when the scheduler is stopped or has no slot left. */
  lemma AdmissionMeaning(c: Core)
    ensures Admission(c) == Stopped <==> c.stopped
    ensures Admission(c) == QueueFull <==> !c.stopped && |c.queue| + c.reserved >= c.capacity
    ensures Admission(c) == Accepted <==> !c.stopped && |c.queue| + c.reserved < c.capacity
  {
  }

  function AfterSubmit(c: Core, item: Item): Core {
    if Admission(c) == Accepted then c.(queue := c.queue + [item]) else c
  }

  function AfterReserve(c: Core): Core {
    if Admission(c) == Accepted then c.(reserved := c.reserved + 1) else c
  }

  function AfterRelease(c: Core): Core {
    c.(reserved := if c.reserved > 0 then c.reserved - 1 else 0)
  }

  /** A reservation is always honoured: after `workersStop` the item is answered on the spot,
      after `stopped` it is queued with its token already set. */
  function AfterCommit(c: Core, item: Item): Core {
    var c' := AfterRelease(c);
    if c.workersStop then c'.(cancelled := c.cancelled + {item})
    else c'.(queue := c.queue + [item], cancelled := if c.stopped then c.cancelled + {item} else c.cancelled)
  }

  function AfterCancelAll(c: Core): Core {
    c.(stopped := true, cancelled := c.cancelled + (set item | item in c.queue) + c.active)
  }

  function AfterTake(c: Core): Core
    requires c.queue != []
  {
    c.(queue := c.queue[1..], active := c.active + {c.queue[0]})
  }

  function AfterFinish(c: Core, item: Item): Core {
    c.(active := c.active - {item})
  }

  function ComputeWorkerCount(cpuCountOverride: int, detected: int): (workers: int)
    ensures
      var cpus := if cpuCountOverride < 0 then detected else cpuCountOverride;
      && 1 <= workers <= 8
      && (workers < cpus ==> workers == 8)
      && (workers > cpus ==> workers == 1)
  {
    var cpus := if cpuCountOverride < 0 then detected else cpuCountOverride;
    if cpus <= 0 then 1 else if cpus > 8 then 8 else cpus
  }

  /** The object: one method per critical section. */
  class Manager {
    const capacity: nat
    var queue: seq<Item>
    var reserved: nat
    var active: set<Item>
    var cancelled: set<Item>
    var stopped: bool
    var workersStop: bool

    ghost function View(): Core
      reads this
    {
      Core(capacity, queue, reserved, active, cancelled, stopped, workersStop)
    }

    constructor (queueCapacity: nat)
      ensures View() == Core(if queueCapacity == 0 then 1 else queueCapacity, [], 0, {}, {}, false, false)
    {
      capacity := if queueCapacity == 0 then 1 else queueCapacity;
      queue, reserved, active, cancelled, stopped, workersStop := [], 0, {}, {}, false, false;
    }

    method Submit(item: Item) returns (status: EnqueueStatus)
      modifies this
      ensures status == Admission(old(View()))
      ensures View() == AfterSubmit(old(View()), item)
    {
      if stopped {
        return Stopped;
      }
      if |queue| + reserved >= capacity {
        return QueueFull;
      }
      queue := queue + [item];
      return Accepted;
    }

    method Reserve() returns (status: EnqueueStatus)
      modifies this
      ensures status == Admission(old(View()))
      ensures View() == AfterReserve(old(View()))
    {
      if stopped {
        return Stopped;
      }
      if |queue| + reserved >= capacity {
        return QueueFull;
      }
      reserved := reserved + 1;
      return Accepted;
    }

    /** `answered` tells that the result was delivered without queueing the item. */
    method Commit(item: Item) returns (answered: bool)
      modifies this
      ensures answered == old(workersStop)
      ensures View() == AfterCommit(old(View()), item)
    {
      if reserved > 0 {
        reserved := reserved - 1;
      }
      if workersStop {
        cancelled := cancelled + {item};
        return true;
      }
      if stopped {
        cancelled := cancelled + {item};
      }
      queue := queue + [item];
      return false;
    }

    method Release()
      modifies this
      ensures View() == AfterRelease(old(View()))
    {
      if reserved > 0 {
        reserved := reserved - 1;
      }
    }

    method CancelAll()
      modifies this
      ensures View() == AfterCancelAll(old(View()))
      ensures stopped && cancelled == old(cancelled) + (set item | item in old(queue)) + old(active)
    {
      stopped := true;
      for i := 0 to |queue|
        invariant queue == old(queue)
        invariant View() == old(View()).(stopped := true, cancelled := old(cancelled) + set item | item in queue[..i])
      {
        cancelled := cancelled + {queue[i]};
        assert queue[..i + 1] == queue[..i] + [queue[i]];
      }
      assert queue[..|queue|] == queue;
      CancelActive();
    }

    method CancelActive()
      modifies this`cancelled
      ensures cancelled == old(cancelled) + active
    {
      var todo := active;
      while todo != {}
        invariant todo <= active
        invariant cancelled == old(cancelled) + (active - todo)
        decreases |todo|
      {
        var item :| item in todo;
        cancelled := cancelled + {item};
        todo := todo - {item};
      }
    }

    method AllowExit()
      modifies this
      ensures View() == old(View()).(workersStop := true)
    {
      workersStop := true;
    }

    /** A worker past its wait: it takes the head of the queue, or exits. */
    method TakeNext() returns (item: Option<Item>)
      requires queue != [] || workersStop
      modifies this
      ensures item == if old(queue) != [] then Some(old(queue)[0]) else None
      ensures View() == if old(queue) != [] then AfterTake(old(View())) else old(View())
    {
      if queue == [] {
        return None;
      }
      item := Some(queue[0]);
      queue := queue[1..];
      active := active + {item.value};
    }

    method Finish(item: Item)
      modifies this
      ensures View() == AfterFinish(old(View()), item)
    {
      active := active - {item};
    }
  }
}

/** Every interleaving of clients and workers over the scheduler. */
module Scheduler {
  import opened JudgeManager

  datatype Phase = Waiting | Running(item: Item) | Delivering(item: Item) | Exited

  /** `reservations` are the unconsumed reservations in client hands, `accepted` the items
      whose caller was told Accepted, `delivered` counts the results set for each of them. */
  datatype System = System(
    core: Core,
    workers: seq<Phase>,
    reservations: set<nat>,
    accepted: set<Item>,
    delivered: multiset<Item>)

  datatype Step =
    | Submit(item: Item)
    | Reserve(reservation: nat)
    | Commit(reservation: nat, item: Item)
    | Release(reservation: nat)
    | CancelAll
    | AllowExit
    | Take(w: nat)
    | Finish(w: nat)
    | Deliver(w: nat)
    | Exit(w: nat)

  predicate IsWorkerStep(step: Step) {
    step.Take? || step.Finish? || step.Deliver? || step.Exit?
  }

  /** New items and reservations are new objects; `shutdown` cancels before it allows exits. */
  predicate Enabled(s: System, step: Step) {
    match step
    case Submit(item) => item !in s.accepted
    case Reserve(r) => r !in s.reservations
    case Commit(r, item) => r in s.reservations && item !in s.accepted
    case Release(r) => r in s.reservations
    case CancelAll => true
    case AllowExit => s.core.stopped
    case Take(w) => w < |s.workers| && s.workers[w].Waiting? && s.core.queue != []
    case Finish(w) => w < |s.workers| && s.workers[w].Running?
    case Deliver(w) => w < |s.workers| && s.workers[w].Delivering?
    case Exit(w) => w < |s.workers| && s.workers[w].Waiting? && s.core.queue == [] && s.core.workersStop
  }

  function Apply(s: System, step: Step): System
    requires Enabled(s, step)
  {
    match step
    case Submit(item) =>
      if Admission(s.core) != Accepted then s
      else s.(core := AfterSubmit(s.core, item), accepted := s.accepted + {item})
    case Reserve(r) =>
      if Admission(s.core) != Accepted then s
      else s.(core := AfterReserve(s.core), reservations := s.reservations + {r})
    case Commit(r, item) =>
      s.(core := AfterCommit(s.core, item),
         reservations := s.reservations - {r},
         accepted := s.accepted + {item},
         delivered := if s.core.workersStop then s.delivered + multiset{item} else s.delivered)
    case Release(r) => s.(core := AfterRelease(s.core), reservations := s.reservations - {r})
    case CancelAll => s.(core := AfterCancelAll(s.core))
    case AllowExit => s.(core := s.core.(workersStop := true))
    case Take(w) => s.(core := AfterTake(s.core), workers := s.workers[w := Running(s.core.queue[0])])
    case Finish(w) =>
      s.(core := AfterFinish(s.core, s.workers[w].item), workers := s.workers[w := Delivering(s.workers[w].item)])
    case Deliver(w) =>
      s.(delivered := s.delivered + multiset{s.workers[w].item}, workers := s.workers[w := Waiting])
    case Exit(w) => s.(workers := s.workers[w := Exited])
  }

  predicate Init(s: System) {
    && s.core.capacity >= 1 && s.core.queue == [] && s.core.reserved == 0 && s.core.active == {}
    && s.core.cancelled == {} && !s.core.stopped && !s.core.workersStop
    && |s.workers| >= 1 && (forall w :: 0 <= w < |s.workers| ==> s.workers[w] == Waiting)
    && s.reservations == {} && s.accepted == {} && s.delivered == multiset{}
  }

  // ------------------------------------------------------------------------ invariant

  predicate Holds(s: System, w: nat, item: Item) {
    w < |s.workers| && (s.workers[w] == Running(item) || s.workers[w] == Delivering(item))
  }

  predicate Runs(s: System, w: nat, item: Item) {
    w < |s.workers| && s.workers[w] == Running(item)
  }

  ghost predicate Bounded(s: System) {
    && |s.core.queue| + s.core.reserved <= s.core.capacity
    && s.core.reserved == |s.reservations|
    && |s.workers| >= 1
  }

  /** An accepted item is in the queue, with one worker, or answered once: exactly one of these. */
  ghost predicate Placed(s: System) {
    && (forall i :: 0 <= i < |s.core.queue| ==> s.core.queue[i] in s.accepted && s.delivered[s.core.queue[i]] == 0)
    && (forall i, j :: 0 <= i < j < |s.core.queue| ==> s.core.queue[i] != s.core.queue[j])
    && (forall w: nat, x :: Holds(s, w, x) ==> x in s.accepted && x !in s.core.queue && s.delivered[x] == 0)
    && (forall w: nat, w': nat, x :: Holds(s, w, x) && Holds(s, w', x) ==> w == w')
    && (forall x :: s.delivered[x] <= 1 && (x in s.delivered ==> x in s.accepted))
    && (forall x :: x in s.accepted ==> x in s.core.queue || x in s.delivered || exists w: nat :: Holds(s, w, x))
  }

  ghost predicate Cancelling(s: System) {
    && (s.core.workersStop ==> s.core.stopped)
    && (forall x :: x in s.core.active <==> exists w: nat :: Runs(s, w, x))
    && (s.core.stopped ==> forall x :: x in s.core.queue || x in s.core.active ==> x in s.core.cancelled)
    && (forall w :: 0 <= w < |s.workers| && s.workers[w].Exited? ==> s.core.workersStop && s.core.queue == [])
  }

  ghost predicate Inv(s: System) {
    Bounded(s) && Placed(s) && Cancelling(s)
  }

  lemma InitHolds(s: System)
    requires Init(s)
    ensures Inv(s)
  {
  }

  lemma StepBounded(s: System, step: Step)
    requires Bounded(s) && Enabled(s, step)
    ensures Bounded(Apply(s, step))
  {
  }

  /** Steps of clients leave the workers alone. */
  lemma ClientPlaced(s: System, step: Step)
    requires Placed(s) && Enabled(s, step) && !IsWorkerStep(step)
    ensures Placed(Apply(s, step))
  {
    var s' := Apply(s, step);
    assert forall v: nat, x :: Holds(s', v, x) <==> Holds(s, v, x);
    assert step.Submit? || step.Commit? ==> step.item !in s.delivered && step.item !in s.core.queue;
  }

  lemma TakePlaced(s: System, w: nat)
    requires Placed(s) && Enabled(s, Take(w))
    ensures Placed(Apply(s, Take(w)))
  {
    var s' := Apply(s, Take(w));
    var head := s.core.queue[0];
    assert forall v: nat, x :: Holds(s', v, x) <==> Holds(s, v, x) || (v == w && x == head);
    assert Holds(s', w, head);
    assert forall x :: x in s.core.queue <==> x == head || x in s'.core.queue;
  }

  lemma FinishPlaced(s: System, w: nat)
    requires Placed(s) && Enabled(s, Finish(w))
    ensures Placed(Apply(s, Finish(w)))
  {
    var s' := Apply(s, Finish(w));
    assert forall v: nat, x :: Holds(s', v, x) <==> Holds(s, v, x);
  }

  lemma DeliverPlaced(s: System, w: nat)
    requires Placed(s) && Enabled(s, Deliver(w))
    ensures Placed(Apply(s, Deliver(w)))
  {
    var s' := Apply(s, Deliver(w));
    var item := s.workers[w].item;
    assert Holds(s, w, item);
    assert forall v: nat, x :: Holds(s', v, x) <==> Holds(s, v, x) && v != w;
    forall x | x in s'.accepted
      ensures x in s'.core.queue || x in s'.delivered || exists v: nat :: Holds(s', v, x)
    {
      if v: nat :| Holds(s, v, x) {
        assert v == w || Holds(s', v, x);
      }
    }
  }

  lemma ExitPlaced(s: System, w: nat)
    requires Placed(s) && Enabled(s, Exit(w))
    ensures Placed(Apply(s, Exit(w)))
  {
    var s' := Apply(s, Exit(w));
    assert forall v: nat, x :: Holds(s', v, x) <==> Holds(s, v, x);
  }

  lemma StepCancelling(s: System, step: Step)
    requires Placed(s) && Cancelling(s) && Enabled(s, step)
    ensures Cancelling(Apply(s, step))
  {
    match step
    case Take(w) => TakeCancelling(s, w);
    case Finish(w) => FinishCancelling(s, w);
    case Deliver(_) => QuietWorkerCancelling(s, step);
    case Exit(_) => QuietWorkerCancelling(s, step);
    case _ => ClientCancelling(s, step);
  }

  lemma TakeCancelling(s: System, w: nat)
    requires Cancelling(s) && Enabled(s, Take(w))
    ensures Cancelling(Apply(s, Take(w)))
  {
    var s' := Apply(s, Take(w));
    assert forall v: nat, x :: Runs(s', v, x) <==> Runs(s, v, x) || (v == w && x == s.core.queue[0]);
    assert Runs(s', w, s.core.queue[0]);
    assert forall x :: x in s'.core.queue ==> x in s.core.queue;
  }

  lemma FinishCancelling(s: System, w: nat)
    requires Placed(s) && Cancelling(s) && Enabled(s, Finish(w))
    ensures Cancelling(Apply(s, Finish(w)))
  {
    var s' := Apply(s, Finish(w));
    assert Holds(s, w, s.workers[w].item);
    assert forall v: nat, x :: Runs(s, v, x) ==> Holds(s, v, x);
    assert forall v: nat, x :: Runs(s', v, x) <==> Runs(s, v, x) && v != w;
  }

  /** Delivering a result and exiting run nothing. */
  lemma QuietWorkerCancelling(s: System, step: Step)
    requires Cancelling(s) && Enabled(s, step) && (step.Deliver? || step.Exit?)
    ensures Cancelling(Apply(s, step))
  {
    var s' := Apply(s, step);
    assert forall v: nat, x :: Runs(s', v, x) <==> Runs(s, v, x);
  }

  lemma ClientCancelling(s: System, step: Step)
    requires Cancelling(s) && Enabled(s, step) && !IsWorkerStep(step)
    ensures Cancelling(Apply(s, step))
  {
    var s' := Apply(s, step);
    assert forall v: nat, x :: Runs(s', v, x) <==> Runs(s, v, x);
  }

  lemma StepKeeps(s: System, step: Step)
    requires Inv(s) && Enabled(s, step)
    ensures Inv(Apply(s, step))
  {
    StepBounded(s, step);
    StepCancelling(s, step);
    match step
    case Take(w) => TakePlaced(s, w);
    case Finish(w) => FinishPlaced(s, w);
    case Deliver(w) => DeliverPlaced(s, w);
    case Exit(w) => ExitPlaced(s, w);
    case _ => ClientPlaced(s, step);
  }

  // ------------------------------------------------------------------------ whole runs

  ghost predicate IsRun(s: System, steps: seq<Step>, s': System)
    decreases |steps|
  {
    if steps == [] then s == s'
    else Enabled(s, steps[0]) && IsRun(Apply(s, steps[0]), steps[1..], s')
  }

  lemma {:induction false} RunKeeps(s: System, steps: seq<Step>, s': System)
    requires Inv(s) && IsRun(s, steps, s')
    ensures Inv(s')
    ensures |s'.workers| == |s.workers| && s'.core.capacity == s.core.capacity
    decreases |steps|
  {
    if steps != [] {
      StepKeeps(s, steps[0]);
      RunKeeps(Apply(s, steps[0]), steps[1..], s');
    }
  }

  /** No accepted item is stranded or answered twice. */
  lemma AnsweredAtMostOnce(s: System, steps: seq<Step>, s': System, x: Item)
    requires Init(s) && IsRun(s, steps, s') && x in s'.accepted
    ensures s'.delivered[x] <= 1
    ensures s'.delivered[x] == 0 <==> x in s'.core.queue || exists w: nat :: Holds(s', w, x)
    ensures x in s'.core.queue ==> forall w: nat :: !Holds(s', w, x)
  {
    InitHolds(s);
    RunKeeps(s, steps, s');
  }

  /** Once the workers have exited, the queue is empty for good and every accepted item,
      including any committed later, has been answered exactly once. */
  lemma NothingLeftAfterExit(s: System, steps: seq<Step>, s': System)
    requires Init(s) && IsRun(s, steps, s')
    requires forall w :: 0 <= w < |s'.workers| ==> s'.workers[w].Exited?
    ensures s'.core.queue == [] && s'.core.active == {}
    ensures forall x :: x in s'.accepted ==> s'.delivered[x] == 1
    ensures forall more, s'' :: IsRun(s', more, s'') ==>
              s''.core.queue == [] && forall x :: x in s''.accepted ==> s''.delivered[x] == 1
  {
    InitHolds(s);
    RunKeeps(s, steps, s');
    AllAnswered(s');
    forall more, s'' | IsRun(s', more, s'')
      ensures s''.core.queue == [] && forall x :: x in s''.accepted ==> s''.delivered[x] == 1
    {
      ExitIsFinal(s', more, s'');
      RunKeeps(s', more, s'');
      AllAnswered(s'');
    }
  }

  lemma AllAnswered(s: System)
    requires Inv(s)
    requires forall w :: 0 <= w < |s.workers| ==> s.workers[w].Exited?
    ensures s.core.queue == [] && s.core.active == {}
    ensures forall x :: x in s.accepted ==> s.delivered[x] == 1
  {
    assert s.workers[0].Exited?;
    assert forall w: nat, x :: !Holds(s, w, x) && !Runs(s, w, x);
  }

  lemma {:induction false} ExitIsFinal(s: System, steps: seq<Step>, s': System)
    requires IsRun(s, steps, s')
    requires forall w :: 0 <= w < |s.workers| ==> s.workers[w].Exited?
    ensures s'.workers == s.workers
    decreases |steps|
  {
    if steps != [] {
      ExitIsFinal(Apply(s, steps[0]), steps[1..], s');
    }
  }

  /** Once stopped, every queued or running item has its token set, also one that a client
      committed afterwards from an earlier reservation. */
  lemma StoppedMeansCancelled(s: System, steps: seq<Step>, s': System)
    requires Init(s) && IsRun(s, steps, s') && s'.core.stopped
    ensures forall x :: x in s'.core.queue ==> x in s'.core.cancelled
    ensures forall w: nat, x :: Runs(s', w, x) ==> x in s'.core.cancelled
  {
    InitHolds(s);
    RunKeeps(s, steps, s');
  }

  // ------------------------------------------------------------------------- capacity

  ghost function Undelivered(s: System): set<Item> {
    set x | x in s.accepted && s.delivered[x] == 0
  }

  ghost function HeldBy(workers: seq<Phase>): set<Item> {
    set w | 0 <= w < |workers| && (workers[w].Running? || workers[w].Delivering?) :: workers[w].item
  }

  lemma {:induction false} HeldByAtMostOneEach(workers: seq<Phase>)
    ensures |HeldBy(workers)| <= |workers|
  {
    if workers != [] {
      var last := |workers| - 1;
      var front := workers[..last];
      HeldByAtMostOneEach(front);
      if workers[last].Running? || workers[last].Delivering? {
        assert HeldBy(workers) == HeldBy(front) + {workers[last].item};
      } else {
        assert HeldBy(workers) == HeldBy(front);
      }
    }
  }

  function Elements(xs: seq<Item>): set<Item> {
    set x | x in xs
  }

  lemma {:induction false} ElementsAtMostLength(xs: seq<Item>)
    ensures |Elements(xs)| <= |xs|
  {
    if xs != [] {
      ElementsAtMostLength(xs[1..]);
      assert Elements(xs) == Elements(xs[1..]) + {xs[0]};
    }
  }

  /** Threads of the HTTP server: one per worker, one per queue slot, and a reserve. */
  const HTTP_RESERVE_THREADS := 8

  function HttpThreads(s: System): nat {
    |s.workers| + s.core.capacity + HTTP_RESERVE_THREADS
  }

  /** The queue with the outstanding reservations never exceeds its capacity; requests that
      hold a reservation or wait for a result leave the reserve threads free. */
  lemma CapacityAndReserve(s: System, steps: seq<Step>, s': System)
    requires Init(s) && IsRun(s, steps, s')
    ensures s'.core.reserved == |s'.reservations|
    ensures |s'.core.queue| + |s'.reservations| <= s'.core.capacity == s.core.capacity
    ensures |Undelivered(s')| + |s'.reservations| <= |s'.workers| + s'.core.capacity
    ensures HttpThreads(s') - (|Undelivered(s')| + |s'.reservations|) >= 8
  {
    InitHolds(s);
    RunKeeps(s, steps, s');
    var queued := Elements(s'.core.queue);
    ElementsAtMostLength(s'.core.queue);
    HeldByAtMostOneEach(s'.workers);
    forall x | x in Undelivered(s')
      ensures x in queued + HeldBy(s'.workers)
    {
      if x !in s'.core.queue {
        var w: nat :| Holds(s', w, x);
        assert s'.workers[w].item == x;
      }
    }
    UnionBound(Undelivered(s'), queued, HeldBy(s'.workers));
  }

  lemma UnionBound<T>(a: set<T>, b: set<T>, c: set<T>)
    requires a <= b + c
    ensures |a| <= |b| + |c|
  {
    assert b + c == a + ((b + c) - a);
    assert b + c == b + (c - b);
    assert c == (c - b) + (c * b);
  }

  // ------------------------------------------------------------------------- progress

  function Weight(phase: Phase): nat {
    match phase
    case Running(_) => 3
    case Delivering(_) => 2
    case Waiting => 1
    case Exited => 0
  }

  function Weights(workers: seq<Phase>): nat {
    if workers == [] then 0 else Weight(workers[0]) + Weights(workers[1..])
  }

  function Work(s: System): nat {
    3 * |s.core.queue| + Weights(s.workers)
  }

  lemma {:induction false} WeightsUpdate(workers: seq<Phase>, w: nat, phase: Phase)
    requires w < |workers|
    ensures Weights(workers[w := phase]) == Weights(workers) - Weight(workers[w]) + Weight(phase)
  {
    if w == 0 {
      assert workers[w := phase][1..] == workers[1..];
    } else {
      assert workers[w := phase][1..] == workers[1..][w - 1 := phase];
      WeightsUpdate(workers[1..], w - 1, phase);
    }
  }

  lemma WorkerStepWorks(s: System, step: Step)
    requires Enabled(s, step) && IsWorkerStep(step)
    ensures Work(Apply(s, step)) < Work(s)
  {
    WeightsUpdate(s.workers, step.w, Apply(s, step).workers[step.w]);
  }

  /** When no worker can move, nothing accepted is waiting for an answer. */
  lemma QuietMeansAnswered(s: System)
    requires Inv(s)
    requires forall step :: IsWorkerStep(step) ==> !Enabled(s, step)
    ensures forall x :: x in s.accepted ==> s.delivered[x] == 1
  {
    forall w: nat | w < |s.workers|
      ensures s.workers[w].Waiting? || s.workers[w].Exited?
      ensures s.workers[w].Waiting? ==> s.core.queue == []
    {
      assert !Enabled(s, Take(w)) && !Enabled(s, Finish(w)) && !Enabled(s, Deliver(w));
    }
    assert s.workers[0].Exited? || s.workers[0].Waiting?;
    assert forall w: nat, x :: !Holds(s, w, x);
  }

  /** From every reachable state the workers alone reach a state with every accepted item
      answered exactly once: whichever steps they take, they take at most `Work(s)` of them. */
  lemma {:induction false} WorkersDrain(s: System) returns (steps: seq<Step>, s': System)
    requires Inv(s)
    ensures IsRun(s, steps, s') && Inv(s')
    ensures forall k :: 0 <= k < |steps| ==> IsWorkerStep(steps[k])
    ensures |steps| <= Work(s)
    ensures s'.accepted == s.accepted
    ensures forall x :: x in s'.accepted ==> s'.delivered[x] == 1
    decreases Work(s)
  {
    if step :| IsWorkerStep(step) && Enabled(s, step) {
      StepKeeps(s, step);
      WorkerStepWorks(s, step);
      var rest;
      rest, s' := WorkersDrain(Apply(s, step));
      steps := [step] + rest;
      assert steps[1..] == rest;
    } else {
      QuietMeansAnswered(s);
      steps, s' := [], s;
    }
  }

  /** Any schedule of the workers ends: a run of worker steps is no longer than `Work(s)`. */
  lemma {:induction false} WorkersTerminate(s: System, steps: seq<Step>, s': System)
    requires IsRun(s, steps, s')
    requires forall k :: 0 <= k < |steps| ==> IsWorkerStep(steps[k])
    ensures |steps| <= Work(s)
    decreases |steps|
  {
    if steps != [] {
      WorkerStepWorks(s, steps[0]);
      WorkersTerminate(Apply(s, steps[0]), steps[1..], s');
    }
  }

  lemma {:induction false} WorkersLeaveClients(s: System, steps: seq<Step>, s': System)
    requires IsRun(s, steps, s')
    requires forall k :: 0 <= k < |steps| ==> IsWorkerStep(steps[k])
    ensures s'.reservations == s.reservations && s'.core.stopped == s.core.stopped
    ensures s'.core.reserved == s.core.reserved && s'.core.capacity == s.core.capacity
    decreases |steps|
  {
    if steps != [] {
      WorkersLeaveClients(Apply(s, steps[0]), steps[1..], s');
    }
  }

  /** No steps of the workers help a client while the scheduler is stopped or reservations alone
      fill the queue. */
  lemma SlotFreeOnlyIf(s: System, steps: seq<Step>, s': System)
    requires Inv(s) && IsRun(s, steps, s')
    requires forall k :: 0 <= k < |steps| ==> IsWorkerStep(steps[k])
    ensures Admission(s'.core) == Accepted ==> !s.core.stopped && |s.reservations| < s.core.capacity
  {
    WorkersLeaveClients(s, steps, s');
    RunKeeps(s, steps, s');
  }

  /** Otherwise their steps lead to a state in which a reservation is granted. */
  lemma SlotGetsFree(s: System) returns (steps: seq<Step>, s': System)
    requires Inv(s)
    ensures IsRun(s, steps, s') && |steps| <= Work(s)
    ensures forall k :: 0 <= k < |steps| ==> IsWorkerStep(steps[k])
    ensures Admission(s'.core) == Accepted <==> !s.core.stopped && |s.reservations| < s.core.capacity
  {
    steps, s' := WorkersDrain(s);
    WorkersLeaveClients(s, steps, s');
    NoneQueued(s');
  }

  lemma NoneQueued(s: System)
    requires Inv(s) && forall x :: x in s.accepted ==> s.delivered[x] == 1
    ensures s.core.queue == [] && s.core.reserved == |s.reservations|
  {
    if s.core.queue != [] {
      QueuedIsUnanswered(s);
    }
  }

  lemma QueuedIsUnanswered(s: System)
    requires Placed(s) && s.core.queue != []
    ensures exists x :: x in s.accepted && s.delivered[x] == 0
  {
    assert s.core.queue[0] in s.accepted && s.delivered[s.core.queue[0]] == 0;
  }

  // ------------------------------------------------------------------ order and shutdown

  /** What a step puts into the queue. */
  function ArrivedBy(s: System, step: Step): seq<Item> {
    match step
    case Submit(item) => if !s.core.stopped && |s.core.queue| + s.core.reserved < s.core.capacity then [item] else []
    case Commit(_, item) => if s.core.workersStop then [] else [item]
    case _ => []
  }

  /** What a worker starts on in a step. */
  function StartedBy(s: System, step: Step): seq<Item>
    requires Enabled(s, step)
  {
    if !step.Take? then []
    else
      var worker := Apply(s, step).workers[step.w];
      if worker.Running? then [worker.item] else []
  }

  /** The items that enter the queue in a run, in order. */
  ghost function Arrivals(s: System, steps: seq<Step>, s': System): seq<Item>
    requires IsRun(s, steps, s')
    decreases |steps|
  {
    if steps == [] then [] else ArrivedBy(s, steps[0]) + Arrivals(Apply(s, steps[0]), steps[1..], s')
  }

  /** The items that workers start on in a run, in order. */
  ghost function Started(s: System, steps: seq<Step>, s': System): seq<Item>
    requires IsRun(s, steps, s')
    decreases |steps|
  {
    if steps == [] then [] else StartedBy(s, steps[0]) + Started(Apply(s, steps[0]), steps[1..], s')
  }

  /** Items are started in the order they were accepted, and none is skipped: those started and
      those still queued are together the queue of before and the arrivals. */
  lemma {:induction false} QueueIsFifo(s: System, steps: seq<Step>, s': System)
    requires IsRun(s, steps, s')
    ensures Started(s, steps, s') + s'.core.queue == s.core.queue + Arrivals(s, steps, s')
    decreases |steps|
  {
    if steps != [] {
      var next, rest := Apply(s, steps[0]), steps[1..];
      QueueIsFifo(next, rest, s');
      FifoStep(s, steps[0]);
      Concatenate(StartedBy(s, steps[0]), Started(next, rest, s'), s'.core.queue, next.core.queue, s.core.queue,
                  ArrivedBy(s, steps[0]), Arrivals(next, rest, s'));
    }
  }

  lemma Concatenate(a: seq<Item>, b: seq<Item>, end: seq<Item>, mid: seq<Item>, start: seq<Item>,
                    c: seq<Item>, d: seq<Item>)
    requires a + mid == start + c && b + end == mid + d
    ensures (a + b) + end == start + (c + d)
  {
    assert (a + b) + end == a + (b + end) == (a + mid) + d == (start + c) + d;
  }

  lemma FifoStep(s: System, step: Step)
    requires Enabled(s, step)
    ensures StartedBy(s, step) + Apply(s, step).core.queue == s.core.queue + ArrivedBy(s, step)
  {
  }

  /** Cancelling stops admission for good and sets the token of everything accepted and not yet
      finished; a token once set stays set. */
  lemma CancelAllStops(s: System, steps: seq<Step>, s': System)
    requires IsRun(Apply(s, CancelAll), steps, s')
    ensures s'.core.stopped && Admission(s'.core) == Stopped
    ensures forall x :: x in s.core.queue || x in s.core.active || x in s.core.cancelled ==> x in s'.core.cancelled
  {
    StopIsFinal(Apply(s, CancelAll), steps, s');
  }

  lemma {:induction false} StopIsFinal(s: System, steps: seq<Step>, s': System)
    requires IsRun(s, steps, s')
    ensures s.core.stopped ==> s'.core.stopped
    ensures s.core.cancelled <= s'.core.cancelled
    decreases |steps|
  {
    if steps != [] {
      StopIsFinal(Apply(s, steps[0]), steps[1..], s');
    }
  }

  /** A reservation committed after the workers may exit is answered on the spot, cancelled. */
  lemma LateCommitIsAnswered(s: System, r: nat, item: Item)
    requires Enabled(s, Commit(r, item)) && s.core.workersStop
    ensures
      var s' := Apply(s, Commit(r, item));
      item in s'.core.cancelled && s'.core.queue == s.core.queue && s'.delivered[item] == s.delivered[item] + 1
  {
  }

  lemma {:induction false} ExitAll(s: System) returns (steps: seq<Step>, s': System)
    requires Inv(s) && s.core.workersStop
    ensures IsRun(s, steps, s') && Inv(s') && forall k :: 0 <= k < |steps| ==> IsWorkerStep(steps[k])
    ensures forall w :: 0 <= w < |s'.workers| ==> s'.workers[w].Exited?
    decreases Work(s)
  {
    if step :| IsWorkerStep(step) && Enabled(s, step) {
      StepKeeps(s, step);
      WorkerStepWorks(s, step);
      var rest;
      rest, s' := ExitAll(Apply(s, step));
      steps := [step] + rest;
      assert steps[1..] == rest;
    } else {
      steps, s' := [], s;
      forall w: nat | w < |s.workers|
        ensures s.workers[w].Exited?
      {
        assert !Enabled(s, Take(w)) && !Enabled(s, Finish(w)) && !Enabled(s, Deliver(w)) && !Enabled(s, Exit(w));
      }
    }
  }

  /** A shutdown can always be completed: from every reachable state, after cancelling and allowing
      exits, the workers' steps lead to a state in which all of them have exited, everything
      accepted is answered once and every item that was pending had its token set. */
  lemma ShutdownCompletes(s: System) returns (steps: seq<Step>, s': System)
    requires Inv(s)
    ensures IsRun(s, [CancelAll, AllowExit] + steps, s')
    ensures forall k :: 0 <= k < |steps| ==> IsWorkerStep(steps[k])
    ensures forall w :: 0 <= w < |s'.workers| ==> s'.workers[w].Exited?
    ensures s'.core.queue == [] && forall x :: x in s'.accepted ==> s'.delivered[x] == 1
    ensures forall x :: x in s.core.queue || x in s.core.active ==> x in s'.core.cancelled
  {
    var stopped := Apply(s, CancelAll);
    StepKeeps(s, CancelAll);
    var leaving := Apply(stopped, AllowExit);
    StepKeeps(stopped, AllowExit);
    steps, s' := ExitAll(leaving);
    AllAnswered(s');
    StopIsFinal(leaving, steps, s');
    var all := [CancelAll, AllowExit] + steps;
    assert all[1..] == [AllowExit] + steps && all[1..][1..] == steps;
    assert IsRun(stopped, all[1..], s');
  }
}
