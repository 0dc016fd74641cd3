/** The limit on concurrent compilations: the gate, the guard that holds a permit for one judge
    run, and every interleaving of the runs that share the gate. */
module CompileGate {

  datatype Answer = Entered | GaveUp | Waits

  /** One turn of the waiting loop, under the lock. */
  function Attempted(active: nat, max: nat, cancelled: bool, remainingMs: int): Answer {
    if active < max then Entered
    else if cancelled || remainingMs <= 0 then GaveUp
    else Waits
  }

  /** The permits in use after one was given back. */
  function Released(active: nat): nat {
    if active > 0 then active - 1 else 0
  }

  function Permits(maxConcurrent: int): (max: nat)
    ensures max >= 1 && (maxConcurrent >= 1 ==> max == maxConcurrent)
  {
    if maxConcurrent < 1 then 1 else maxConcurrent
  }

  class Gate {
    const max: nat
    var active: nat

    constructor (maxConcurrent: int)
      ensures max == Permits(maxConcurrent) && active == 0
    {
      max, active := Permits(maxConcurrent), 0;
    }

    /** The part of `acquire` between two waits on the condition variable. */
    method Attempt(cancelled: bool, remainingMs: int) returns (answer: Answer)
      modifies this
      ensures answer == Attempted(old(active), max, cancelled, remainingMs)
      ensures active == old(active) + if answer.Entered? then 1 else 0
    {
      if active >= max {
        if cancelled {
          return GaveUp;
        }
        if remainingMs <= 0 {
          return GaveUp;
        }
        return Waits;
      }
      active := active + 1;
      return Entered;
    }

    method Release()
      modifies this
      ensures active == Released(old(active))
    {
      if active > 0 {
        active := active - 1;
      }
    }
  }

  // ------------------------------------------------------------- all runs together

  type Run = nat

  /** Where a judge run is with its guard: in the constructor, in the guard's scope, past it. */
  datatype Scope = Waiting | Inside(acquired: bool) | Left

  /** `taken` and `given` count what each run did to the gate. */
  datatype State = State(
    max: nat,
    active: nat,
    scopes: map<Run, Scope>,
    taken: map<Run, nat>,
    given: map<Run, nat>)

  datatype Step =
    | Construct(run: Run)
    | Attempt(run: Run, cancelled: bool, remainingMs: int)
    | ReleaseNow(run: Run)
    | Destroy(run: Run)

  function Start(maxConcurrent: int): State {
    State(Permits(maxConcurrent), 0, map[], map[], map[])
  }

  predicate Enabled(s: State, step: Step) {
    match step
    case Construct(r) => r !in s.scopes
    case Attempt(r, _, _) => r in s.scopes && s.scopes[r].Waiting?
    case ReleaseNow(r) => r in s.scopes && s.scopes[r].Inside?
    case Destroy(r) => r in s.scopes && s.scopes[r].Inside?
  }

  function Count(counts: map<Run, nat>, r: Run): nat {
    if r in counts then counts[r] else 0
  }

  /** The guard gives its permit back if it still has one. */
  function GiveBack(s: State, r: Run): State
    requires r in s.scopes && s.scopes[r].Inside?
  {
    if s.scopes[r].acquired then
      s.(active := Released(s.active),
         scopes := s.scopes[r := Inside(false)],
         given := s.given[r := Count(s.given, r) + 1])
    else s
  }

  function Apply(s: State, step: Step): State
    requires Enabled(s, step)
  {
    match step
    case Construct(r) => s.(scopes := s.scopes[r := Waiting])
    case Attempt(r, cancelled, remainingMs) =>
      (match Attempted(s.active, s.max, cancelled, remainingMs)
       case Entered =>
         s.(active := s.active + 1, scopes := s.scopes[r := Inside(true)], taken := s.taken[r := Count(s.taken, r) + 1])
       case GaveUp => s.(scopes := s.scopes[r := Inside(false)])
       case Waits => s)
    case ReleaseNow(r) => GiveBack(s, r)
    case Destroy(r) =>
      var s' := GiveBack(s, r);
      s'.(scopes := s'.scopes[r := Left])
  }

  ghost predicate Holding(s: State, r: Run) {
    r in s.scopes && s.scopes[r] == Inside(true)
  }

  ghost function Holders(s: State): set<Run> {
    set r | r in s.scopes && Holding(s, r)
  }

  /** What run `r` did to the gate fits where it is. */
  ghost predicate Balanced(s: State, r: Run) {
    && Count(s.taken, r) <= 1
    && Count(s.taken, r) == Count(s.given, r) + (if Holding(s, r) then 1 else 0)
    && (r !in s.scopes || s.scopes[r].Waiting? ==> Count(s.taken, r) == 0)
  }

  ghost predicate Inv(s: State) {
    && s.active == |Holders(s)| <= s.max
    && forall r :: Balanced(s, r)
  }

  lemma HoldersAfter(s: State, step: Step)
    requires Enabled(s, step)
    ensures
      var s', r := Apply(s, step), step.run;
      Holders(s') == if Holding(s', r) then Holders(s) + {r} else Holders(s) - {r}
  {
    var s', r := Apply(s, step), step.run;
    forall q: Run | q != r
      ensures q in Holders(s') <==> q in Holders(s)
    {
    }
  }

  lemma StepKeeps(s: State, step: Step)
    requires Inv(s) && Enabled(s, step)
    ensures Inv(Apply(s, step)) && Apply(s, step).max == s.max
  {
    var s', r := Apply(s, step), step.run;
    HoldersAfter(s, step);
    assert Holding(s, r) <==> r in Holders(s);
    if Holding(s, r) && !Holding(s', r) {
      assert |Holders(s')| == |Holders(s)| - 1;
    }
    forall q: Run
      ensures Balanced(s', q)
    {
      assert Balanced(s, q);
    }
  }

  ghost predicate IsRun(states: seq<State>, steps: seq<Step>, maxConcurrent: int) {
    && |states| == |steps| + 1
    && states[0] == Start(maxConcurrent)
    && forall k :: 0 <= k < |steps| ==> Follows(states[k], steps[k], states[k + 1])
  }

  ghost predicate Follows(s: State, step: Step, s': State) {
    Enabled(s, step) && s' == Apply(s, step)
  }

  lemma {:induction false} RunKeeps(states: seq<State>, steps: seq<Step>, maxConcurrent: int, n: nat)
    requires IsRun(states, steps, maxConcurrent) && n < |states|
    ensures Inv(states[n]) && states[n].max == Permits(maxConcurrent)
  {
    if n == 0 {
      assert Holders(states[0]) == {};
      assert |Holders(states[0])| == 0;
    } else {
      RunKeeps(states, steps, maxConcurrent, n - 1);
      assert Follows(states[n - 1], steps[n - 1], states[n]);
      StepKeeps(states[n - 1], steps[n - 1]);
    }
  }

  /** In every reachable state no more runs hold a permit than the gate admits, and a run past
      its guard gave back exactly what it took, at most one permit. */
  lemma PermitsAreBounded(states: seq<State>, steps: seq<Step>, maxConcurrent: int, n: nat)
    requires IsRun(states, steps, maxConcurrent) && n < |states|
    ensures |Holders(states[n])| == states[n].active <= Permits(maxConcurrent)
    ensures forall r :: r in states[n].scopes && states[n].scopes[r].Left? ==>
              Count(states[n].given, r) == Count(states[n].taken, r) <= 1
  {
    RunKeeps(states, steps, maxConcurrent, n);
    forall r | r in states[n].scopes && states[n].scopes[r].Left?
      ensures Count(states[n].given, r) == Count(states[n].taken, r) <= 1
    {
      assert Balanced(states[n], r);
    }
  }

  /** A run is turned away only when it was cancelled or out of time, and only while all permits
      are held by others; it waits no longer once it is cancelled or out of time. */
  lemma WaitingEnds(s: State, step: Step)
    requires Inv(s) && step.Attempt? && Enabled(s, step)
    ensures Apply(s, step).scopes[step.run] == Inside(true) <==> |Holders(s)| < s.max
    ensures Apply(s, step).scopes[step.run] == Inside(false) <==>
              |Holders(s)| == s.max && (step.cancelled || step.remainingMs <= 0)
    ensures step.cancelled || step.remainingMs <= 0 ==> !Apply(s, step).scopes[step.run].Waiting?
  {
  }

  /** Every release finds a permit to give back: the guard against a negative count is never
      what decides. */
  lemma ReleaseIsExact(s: State, step: Step)
    requires Inv(s) && (step.ReleaseNow? || step.Destroy?) && Enabled(s, step)
    ensures Apply(s, step).active == s.active - if Holding(s, step.run) then 1 else 0
    ensures !Holding(Apply(s, step), step.run)
  {
    if Holding(s, step.run) {
      assert step.run in Holders(s);
      assert |Holders(s)| > 0;
    }
  }
}
