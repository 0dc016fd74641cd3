/** The sliding-window limiter of login attempts. `Allow` is the algorithm with its deques and
    its periodic sweep; `Ledger` is the reference: a complete log of the allowed attempts. */
module RateLimiter {
  import opened Clock

  const SWEEP_INTERVAL := 1024

  datatype Config = Config(maxFailures: int, windowSeconds: int) {
    function Window(): int { windowSeconds * SECOND }

    /** The deque is only compared with the threshold when it is not empty. */
    function Quota(): nat { if maxFailures < 1 then 1 else maxFailures }
  }

  datatype Result = Allowed | Blocked(retryAfterSeconds: int)

  datatype State = State(failures: map<string, seq<int>>, sweepCounter: nat)

  // -------------------------------------------------------------------- the algorithm

  /** Drops the expired front of a deque. */
  function Prune(deque: seq<int>, now: int, window: int): seq<int> {
    if deque != [] && now - deque[0] > window then Prune(deque[1..], now, window) else deque
  }

  function DequeOf(failures: map<string, seq<int>>, key: string): seq<int> {
    if key in failures then failures[key] else []
  }

  function Swept(failures: map<string, seq<int>>, now: int, window: int): map<string, seq<int>> {
    map k | k in failures && Prune(failures[k], now, window) != [] :: Prune(failures[k], now, window)
  }

  function RetryAfter(oldest: int, now: int, window: int): int {
    var remaining := window - (now - oldest);
    var seconds := (remaining + SECOND - 1) / SECOND;
    if seconds < 1 then 1 else seconds
  }

  function Answer(cfg: Config, live: seq<int>, now: int): Result {
    if live != [] && |live| >= cfg.maxFailures then Blocked(RetryAfter(live[0], now, cfg.Window())) else Allowed
  }

  /** The deque of the key after a call, and the answer. */
  function Decided(cfg: Config, deque: seq<int>, now: int): (seq<int>, Result) {
    var live := Prune(deque, now, cfg.Window());
    var answer := Answer(cfg, live, now);
    (if answer.Allowed? then live + [now] else live, answer)
  }

  function AfterAllow(cfg: Config, s: State, key: string, now: int): (State, Result) {
    var sweep := s.sweepCounter + 1 >= SWEEP_INTERVAL;
    var failures := if sweep then Swept(s.failures, now, cfg.Window()) else s.failures;
    var (deque, answer) := Decided(cfg, DequeOf(failures, key), now);
    (State(failures[key := deque], if sweep then 0 else s.sweepCounter + 1), answer)
  }

  function AfterClear(s: State, key: string): State {
    s.(failures := s.failures - {key})
  }

  class Limiter {
    const cfg: Config
    var failures: map<string, seq<int>>
    var sweepCounter: nat

    constructor (cfg: Config)
      ensures this.cfg == cfg && View() == State(map[], 0)
    {
      this.cfg, failures, sweepCounter := cfg, map[], 0;
    }

    ghost function View(): State
      reads this
    {
      State(failures, sweepCounter)
    }

    static method PruneDeque(deque: seq<int>, now: int, window: int) returns (live: seq<int>)
      ensures live == Prune(deque, now, window)
    {
      live := deque;
      while live != [] && now - live[0] > window
        invariant Prune(live, now, window) == Prune(deque, now, window)
        decreases |live|
      {
        live := live[1..];
      }
    }

    method Sweep(now: int)
      modifies this`failures
      ensures failures == Swept(old(failures), now, cfg.Window())
    {
      var todo := failures.Keys;
      while todo != {}
        invariant todo <= failures.Keys
        invariant failures ==
                    map k | k in old(failures) && (k in todo || Prune(old(failures)[k], now, cfg.Window()) != [])
                      :: if k in todo then old(failures)[k] else Prune(old(failures)[k], now, cfg.Window())
        decreases |todo|
      {
        var key :| key in todo;
        var live := PruneDeque(failures[key], now, cfg.Window());
        if live == [] {
          failures := failures - {key};
        } else {
          failures := failures[key := live];
        }
        todo := todo - {key};
      }
    }

    method Decide(key: string, now: int) returns (result: Result)
      modifies this`failures
      ensures
        var (deque, answer) := Decided(cfg, DequeOf(old(failures), key), now);
        result == answer && failures == old(failures)[key := deque]
    {
      var window := cfg.Window();
      var live := [];
      if key in failures {
        live := PruneDeque(failures[key], now, window);
        failures := failures[key := live];
        if live == [] {
          failures := failures - {key};
        } else if |live| >= cfg.maxFailures {
          return Blocked(RetryAfter(live[0], now, window));
        }
      }
      assert DequeOf(failures, key) == live;
      failures := failures[key := DequeOf(failures, key) + [now]];
      return Allowed;
    }

    method Allow(key: string, now: int) returns (result: Result)
      modifies this
      ensures (View(), result) == AfterAllow(cfg, old(View()), key, now)
    {
      sweepCounter := sweepCounter + 1;
      if sweepCounter >= SWEEP_INTERVAL {
        sweepCounter := 0;
        Sweep(now);
      }
      result := Decide(key, now);
    }

    method Clear(key: string)
      modifies this
      ensures View() == AfterClear(old(View()), key)
    {
      failures := failures - {key};
    }
  }

  // ------------------------------------------------------------------------------ runs

  datatype Event = Attempt(key: string, now: int) | Clear(key: string)

  function After(cfg: Config, s: State, e: Event): State {
    match e
    case Attempt(key, now) => AfterAllow(cfg, s, key, now).0
    case Clear(key) => AfterClear(s, key)
  }

  /** The limiter after a run from its construction. */
  function StateAfter(cfg: Config, events: seq<Event>): State {
    if events == [] then State(map[], 0)
    else After(cfg, StateAfter(cfg, events[..|events| - 1]), events[|events| - 1])
  }

  function DequeAfter(cfg: Config, events: seq<Event>, key: string): seq<int> {
    DequeOf(StateAfter(cfg, events).failures, key)
  }

  /** What the limiter answers to one more call. */
  function AnswerTo(cfg: Config, events: seq<Event>, key: string, now: int): Result {
    AfterAllow(cfg, StateAfter(cfg, events), key, now).1
  }

  /** The clocks of the attempts of a key that the limiter allowed since the key's last clear. */
  function AllowedTimes(cfg: Config, events: seq<Event>, key: string): seq<int> {
    if events == [] then []
    else
      var before, e := events[..|events| - 1], events[|events| - 1];
      if e.key != key then AllowedTimes(cfg, before, key)
      else if e.Clear? then []
      else if AnswerTo(cfg, before, key, e.now).Allowed? then AllowedTimes(cfg, before, key) + [e.now]
      else AllowedTimes(cfg, before, key)
  }

  /** The highest clock of a run. */
  function High(events: seq<Event>, start: int): int {
    if events == [] then start
    else
      var high, e := High(events[..|events| - 1], start), events[|events| - 1];
      if e.Attempt? && e.now > high then e.now else high
  }

  /** The clock is read before the lock is taken, so a call may enter behind one with a higher
      clock. In this run no call is late by more than `late`. */
  predicate LateBy(events: seq<Event>, start: int, late: nat) {
    if events == [] then true
    else
      var before, e := events[..|events| - 1], events[|events| - 1];
      LateBy(before, start, late) && (e.Attempt? ==> e.now >= High(before, start) - late)
  }

  predicate InClockOrder(events: seq<Event>, start: int) {
    LateBy(events, start, 0)
  }

  // -------------------------------------------------------------------- the reference

  /** The logged attempts that a call at `now` still counts. */
  function Recent(log: seq<int>, now: int, window: int): seq<int> {
    if log == [] then []
    else
      var rest := Recent(log[..|log| - 1], now, window);
      if now - log[|log| - 1] > window then rest else rest + [log[|log| - 1]]
  }

  function Decision(cfg: Config, log: seq<int>, now: int): Result {
    var recent := Recent(log, now, cfg.Window());
    if |recent| >= cfg.Quota() then Blocked(RetryAfter(recent[0], now, cfg.Window())) else Allowed
  }

  /** The allowed attempts of a limiter that keeps every one of them and counts the recent ones
      afresh at each call. */
  function ReferenceTimes(cfg: Config, events: seq<Event>, key: string): seq<int> {
    if events == [] then []
    else
      var times, e := ReferenceTimes(cfg, events[..|events| - 1], key), events[|events| - 1];
      if e.key != key then times
      else if e.Clear? then []
      else if Decision(cfg, times, e.now).Allowed? then times + [e.now]
      else times
  }

  // ------------------------------------------------------------------- pruning a deque

  lemma {:induction false} PruneIsTail(deque: seq<int>, now: int, window: int) returns (k: nat)
    ensures k <= |deque| && Prune(deque, now, window) == deque[k..]
    ensures forall i :: 0 <= i < k ==> now - deque[i] > window
    ensures k < |deque| ==> now - deque[k] <= window
  {
    if deque != [] && now - deque[0] > window {
      k := PruneIsTail(deque[1..], now, window);
      k := k + 1;
    } else {
      k := 0;
    }
  }

  lemma {:induction false} PruneTwice(deque: seq<int>, now: int, window: int)
    ensures Prune(Prune(deque, now, window), now, window) == Prune(deque, now, window)
  {
    if deque != [] && now - deque[0] > window {
      PruneTwice(deque[1..], now, window);
    }
  }

  lemma {:induction false} PruneAll(deque: seq<int>, now: int, window: int)
    requires forall i :: 0 <= i < |deque| ==> now - deque[i] > window
    ensures Prune(deque, now, window) == []
  {
    if deque != [] {
      PruneAll(deque[1..], now, window);
    }
  }

  /** A sweep that comes with a call of the key itself changes neither deque nor answer. */
  lemma SweepIsInvisible(cfg: Config, s: State, key: string, now: int)
    ensures AfterAllow(cfg, s, key, now).1 == Decided(cfg, DequeOf(s.failures, key), now).1
    ensures DequeOf(AfterAllow(cfg, s, key, now).0.failures, key) == Decided(cfg, DequeOf(s.failures, key), now).0
  {
    PruneTwice(DequeOf(s.failures, key), now, cfg.Window());
  }

  /** A call of another key leaves the deque alone, or prunes it in a sweep. */
  lemma OtherDeque(cfg: Config, s: State, other: string, now: int, key: string)
    requires other != key
    ensures
      var deque, s' := DequeOf(s.failures, key), AfterAllow(cfg, s, other, now).0;
      if s.sweepCounter + 1 >= SWEEP_INTERVAL
      then DequeOf(s'.failures, key) == Prune(deque, now, cfg.Window()) && s'.sweepCounter == 0
      else DequeOf(s'.failures, key) == deque && s'.sweepCounter == s.sweepCounter + 1
  {
  }

  // --------------------------------------------------------------- deques against logs

  /** A deque is the log without a prefix that has expired. */
  ghost predicate IsLiveTail(log: seq<int>, deque: seq<int>, high: int, window: int) {
    exists k: nat :: IsTailFrom(log, deque, high, window, k)
  }

  ghost predicate IsTailFrom(log: seq<int>, deque: seq<int>, high: int, window: int, k: nat) {
    k <= |log| && deque == log[k..] && forall i :: 0 <= i < k ==> high - log[i] > window
  }

  /** Any `quota + 1` consecutive entries span more than `span`. */
  predicate Spread(log: seq<int>, quota: nat, span: int) {
    forall i, j :: 0 <= i && i + quota <= j < |log| ==> log[j] - log[i] > span
  }

  predicate Below(log: seq<int>, high: int) {
    forall i :: 0 <= i < |log| ==> log[i] <= high
  }

  /** What a run with calls late by at most `late` keeps of every key. */
  ghost predicate Kept(cfg: Config, log: seq<int>, deque: seq<int>, high: int, late: nat) {
    && IsLiveTail(log, deque, high, cfg.Window())
    && Below(log, high)
    && Spread(log, cfg.Quota(), cfg.Window() - late)
  }

  lemma TimePasses(log: seq<int>, deque: seq<int>, high: int, high': int, window: int)
    requires IsLiveTail(log, deque, high, window) && high <= high'
    ensures IsLiveTail(log, deque, high', window)
  {
    var k: nat :| IsTailFrom(log, deque, high, window, k);
    assert IsTailFrom(log, deque, high', window, k);
  }

  /** Pruning at a clock up to the highest one drops only what has expired. */
  lemma PrunedTail(log: seq<int>, deque: seq<int>, now: int, high: int, window: int)
    requires IsLiveTail(log, deque, high, window) && now <= high
    ensures IsLiveTail(log, Prune(deque, now, window), high, window)
  {
    var k: nat :| IsTailFrom(log, deque, high, window, k);
    var p := PruneIsTail(deque, now, window);
    assert forall i :: k <= i < k + p ==> log[i] == deque[i - k];
    assert IsTailFrom(log, Prune(deque, now, window), high, window, k + p);
  }

  lemma LiveTailGrows(log: seq<int>, live: seq<int>, now: int, high: int, window: int)
    requires IsLiveTail(log, live, high, window)
    ensures IsLiveTail(log + [now], live + [now], high, window)
  {
    var k: nat :| IsTailFrom(log, live, high, window, k);
    assert live + [now] == (log + [now])[k..];
    assert IsTailFrom(log + [now], live + [now], high, window, k);
  }

  /** A deque below the threshold means that the attempt `quota` places back has expired. */
  lemma SpreadGrows(log: seq<int>, live: seq<int>, now: int, high: int, window: int, late: nat, quota: nat)
    requires IsLiveTail(log, live, high, window) && |live| < quota
    requires Spread(log, quota, window - late) && now >= high - late
    ensures Spread(log + [now], quota, window - late)
  {
    var k: nat :| IsTailFrom(log, live, high, window, k);
    var log' := log + [now];
    forall i | 0 <= i && i + quota <= |log|
      ensures log'[|log|] - log'[i] > window - late
    {
      assert i < k;
    }
    assert forall i :: 0 <= i < |log| ==> log'[i] == log[i];
  }

  lemma DecidedKept(cfg: Config, log: seq<int>, deque: seq<int>, now: int, high: int, late: nat)
    requires Kept(cfg, log, deque, high, late) && high - late <= now <= high
    ensures
      var (deque', answer) := Decided(cfg, deque, now);
      Kept(cfg, if answer.Allowed? then log + [now] else log, deque', high, late)
  {
    var window := cfg.Window();
    var live := Prune(deque, now, window);
    PrunedTail(log, deque, now, high, window);
    if Answer(cfg, live, now).Allowed? {
      LiveTailGrows(log, live, now, high, window);
      SpreadGrows(log, live, now, high, window, late, cfg.Quota());
    }
  }

  lemma KeptLater(cfg: Config, log: seq<int>, deque: seq<int>, high: int, high': int, late: nat)
    requires Kept(cfg, log, deque, high, late) && high <= high'
    ensures Kept(cfg, log, deque, high', late)
  {
    TimePasses(log, deque, high, high', cfg.Window());
  }

  /** After every run each deque is the live tail of the key's allowed attempts, and these are
      spread as far as the lateness leaves them. */
  lemma {:induction false} RunKeeps(cfg: Config, events: seq<Event>, start: int, late: nat, key: string)
    requires LateBy(events, start, late)
    ensures Kept(cfg, AllowedTimes(cfg, events, key), DequeAfter(cfg, events, key), High(events, start), late)
    decreases |events|
  {
    if events == [] {
      assert IsTailFrom([], [], start, cfg.Window(), 0);
    } else {
      var before, e := events[..|events| - 1], events[|events| - 1];
      RunKeeps(cfg, before, start, late, key);
      StepKeeps(cfg, before, e, start, late, key);
      assert before + [e] == events;
    }
  }

  lemma StepKeeps(cfg: Config, before: seq<Event>, e: Event, start: int, late: nat, key: string)
    requires Kept(cfg, AllowedTimes(cfg, before, key), DequeAfter(cfg, before, key), High(before, start), late)
    requires e.Attempt? ==> e.now >= High(before, start) - late
    ensures Kept(cfg, AllowedTimes(cfg, before + [e], key), DequeAfter(cfg, before + [e], key),
                 High(before + [e], start), late)
  {
    var log, deque, high := AllowedTimes(cfg, before, key), DequeAfter(cfg, before, key), High(before, start);
    var events := before + [e];
    assert events[..|events| - 1] == before;
    KeptLater(cfg, log, deque, high, High(events, start), late);
    if e.Clear? {
      assert IsTailFrom([], [], high, cfg.Window(), 0);
    } else if e.key == key {
      SweepIsInvisible(cfg, StateAfter(cfg, before), key, e.now);
      DecidedKept(cfg, log, deque, e.now, High(events, start), late);
    } else {
      OtherDeque(cfg, StateAfter(cfg, before), e.key, e.now, key);
      PrunedTail(log, deque, e.now, High(events, start), cfg.Window());
    }
  }

  // ------------------------------------------------------------------- the window bound

  ghost function InWindow(log: seq<int>, from: int, to: int): set<nat> {
    set i: nat | i < |log| && from <= log[i] <= to
  }

  lemma {:induction false} IntervalBound(s: set<nat>, lo: nat, n: nat)
    requires forall i :: i in s ==> lo <= i < lo + n
    ensures |s| <= n
    decreases n
  {
    if n == 0 {
      assert s == {};
    } else {
      IntervalBound(s - {lo + n - 1}, lo, n - 1);
      assert s <= (s - {lo + n - 1}) + {lo + n - 1};
      if lo + n - 1 in s {
        assert s == (s - {lo + n - 1}) + {lo + n - 1};
      } else {
        assert s == s - {lo + n - 1};
      }
    }
  }

  lemma {:induction false} LeastIndex(s: set<nat>) returns (least: nat)
    requires s != {}
    ensures least in s && forall i :: i in s ==> least <= i
  {
    var x :| x in s;
    if s == {x} {
      return x;
    }
    var rest := LeastIndex(s - {x});
    least := if x < rest then x else rest;
    assert forall i :: i in s ==> i == x || i in s - {x};
  }

  lemma SpreadBoundsWindows(log: seq<int>, quota: nat, span: int, from: int, length: int)
    requires Spread(log, quota, span) && length <= span
    ensures |InWindow(log, from, from + length)| <= quota
  {
    var inside := InWindow(log, from, from + length);
    if inside != {} {
      var lo := LeastIndex(inside);
      forall i | i in inside
        ensures lo <= i < lo + quota
      {
      }
      IntervalBound(inside, lo, quota);
    }
  }

  /** Whenever calls are late by at most `late`, any closed window of length `length` holds at
      most `Quota` allowed attempts of a key since its last clear. */
  ghost predicate Bounds(cfg: Config, late: nat, length: int) {
    forall events, start, key, from :: LateBy(events, start, late) ==>
      WindowWithin(cfg, events, start, key, from, length)
  }

  ghost predicate WindowWithin(cfg: Config, events: seq<Event>, start: int, key: string, from: int, length: int) {
    |InWindow(AllowedTimes(cfg, events, key), from, from + length)| <=
      if cfg.maxFailures < 1 then 1 else cfg.maxFailures
  }

  /** In clock order the bound holds for the configured window. */
  lemma WindowBound(cfg: Config, events: seq<Event>, start: int, key: string, from: int)
    requires InClockOrder(events, start)
    ensures
      var window := cfg.windowSeconds * 1_000_000_000;
      |InWindow(AllowedTimes(cfg, events, key), from, from + window)| <=
        if cfg.maxFailures < 1 then 1 else cfg.maxFailures
  {
    LateWindowBound(cfg, events, start, 0, key, from, cfg.Window());
  }

  /** Out of clock order it holds for the window shortened by the lateness. */
  lemma LateWindowBound(cfg: Config, events: seq<Event>, start: int, late: nat, key: string, from: int, length: int)
    requires LateBy(events, start, late) && length <= cfg.Window() - late
    ensures |InWindow(AllowedTimes(cfg, events, key), from, from + length)| <= cfg.Quota()
  {
    RunKeeps(cfg, events, start, late, key);
    SpreadBoundsWindows(AllowedTimes(cfg, events, key), cfg.Quota(), cfg.Window() - late, from, length);
  }

  /** And for no longer one, whatever the configuration: the bound holds of every run exactly
      for the windows that the lateness leaves (and the empty ones). */
  lemma WindowBoundIff(cfg: Config, late: nat, length: int)
    ensures Bounds(cfg, late, length) <==> length < 0 || length <= cfg.windowSeconds * 1_000_000_000 - late
  {
    if length <= cfg.Window() - late {
      forall events, start, key, from | LateBy(events, start, late)
        ensures WindowWithin(cfg, events, start, key, from, length)
      {
        LateWindowBound(cfg, events, start, late, key, from, length);
      }
    } else if length < 0 {
      forall events, start, key, from | LateBy(events, start, late)
        ensures WindowWithin(cfg, events, start, key, from, length)
      {
        assert InWindow(AllowedTimes(cfg, events, key), from, from + length) == {};
      }
    } else {
      var events := Overflowing(cfg, late, length);
      assert !WindowWithin(cfg, events, 0, "a", 0, length);
    }
  }

  // ---------------------------------------------------------------- runs that overflow

  /** `n` more events like `e`. */
  function Extended(before: seq<Event>, e: Event, n: nat): seq<Event> {
    if n == 0 then before else Extended(before, e, n - 1) + [e]
  }

  function Zeros(n: nat): (zeros: seq<int>)
    ensures |zeros| == n && forall i :: 0 <= i < n ==> zeros[i] == 0
  {
    if n == 0 then [] else Zeros(n - 1) + [0]
  }

  lemma OneMoreAllowed(cfg: Config, before: seq<Event>, key: string, now: int)
    requires AnswerTo(cfg, before, key, now).Allowed?
    ensures AllowedTimes(cfg, before + [Attempt(key, now)], key) == AllowedTimes(cfg, before, key) + [now]
  {
    assert (before + [Attempt(key, now)])[..|before|] == before;
  }

  lemma {:induction false} CallsAreLate(before: seq<Event>, e: Event, n: nat, start: int, late: nat)
    requires LateBy(before, start, late) && e.Attempt? && e.now >= High(before, start) - late
    ensures
      var events := Extended(before, e, n);
      && LateBy(events, start, late)
      && High(events, start) == if n > 0 && e.now > High(before, start) then e.now else High(before, start)
  {
    if n > 0 {
      CallsAreLate(before, e, n - 1, start, late);
      OneMoreLate(Extended(before, e, n - 1), e, start, late);
    }
  }

  lemma OneMoreLate(before: seq<Event>, e: Event, start: int, late: nat)
    requires LateBy(before, start, late) && e.Attempt? && e.now >= High(before, start) - late
    ensures LateBy(before + [e], start, late)
    ensures High(before + [e], start) == if e.now > High(before, start) then e.now else High(before, start)
  {
    assert (before + [e])[..|before|] == before;
  }

  /** The first calls of a key at one time are allowed, up to the quota; all of them if even
      simultaneous calls expire. */
  lemma {:induction false} FirstCalls(cfg: Config, n: nat)
    requires cfg.Window() < 0 || n <= cfg.Quota()
    ensures AllowedTimes(cfg, Extended([], Attempt("a", 0), n), "a") == Zeros(n)
  {
    if n > 0 {
      var before := Extended([], Attempt("a", 0), n - 1);
      FirstCalls(cfg, n - 1);
      RunKeepsAtZero(cfg, n - 1);
      FirstCallAllowed(cfg, before, n - 1);
      OneMoreAllowed(cfg, before, "a", 0);
    }
  }

  /** The deque of the first calls: a tail of zeros. */
  lemma RunKeepsAtZero(cfg: Config, n: nat)
    requires AllowedTimes(cfg, Extended([], Attempt("a", 0), n), "a") == Zeros(n)
    ensures
      var deque := DequeAfter(cfg, Extended([], Attempt("a", 0), n), "a");
      |deque| <= n && forall i :: 0 <= i < |deque| ==> deque[i] == 0
  {
    var events := Extended([], Attempt("a", 0), n);
    CallsAreLate([], Attempt("a", 0), n, 0, 0);
    RunKeeps(cfg, events, 0, 0, "a");
    var k: nat :| IsTailFrom(Zeros(n), DequeAfter(cfg, events, "a"), High(events, 0), cfg.Window(), k);
  }

  lemma FirstCallAllowed(cfg: Config, before: seq<Event>, n: nat)
    requires
      var deque := DequeAfter(cfg, before, "a");
      |deque| <= n && forall i :: 0 <= i < |deque| ==> deque[i] == 0
    requires cfg.Window() < 0 || n < cfg.Quota()
    ensures AnswerTo(cfg, before, "a", 0).Allowed?
  {
    var deque := DequeAfter(cfg, before, "a");
    SweepIsInvisible(cfg, StateAfter(cfg, before), "a", 0);
    if cfg.Window() < 0 {
      PruneAll(deque, 0, cfg.Window());
    } else {
      var k := PruneIsTail(deque, 0, cfg.Window());
    }
  }

  /** The limiter after `n` calls of another key. */
  function Busy(cfg: Config, s: State, now: int, n: nat): State {
    if n == 0 then s else AfterAllow(cfg, Busy(cfg, s, now, n - 1), "b", now).0
  }

  /** Once there are enough of them, one has swept. */
  lemma {:induction false} BusySweeps(cfg: Config, s: State, now: int, n: nat)
    ensures
      var s', deque := Busy(cfg, s, now, n), DequeOf(s.failures, "a");
      || DequeOf(s'.failures, "a") == Prune(deque, now, cfg.Window())
      || (DequeOf(s'.failures, "a") == deque && s'.sweepCounter == s.sweepCounter + n && n < SWEEP_INTERVAL)
  {
    if n > 0 {
      BusySweeps(cfg, s, now, n - 1);
      OtherDeque(cfg, Busy(cfg, s, now, n - 1), "b", now, "a");
      PruneTwice(DequeOf(s.failures, "a"), now, cfg.Window());
    }
  }

  lemma {:induction false} CallsAreBusy(cfg: Config, before: seq<Event>, now: int, n: nat)
    ensures StateAfter(cfg, Extended(before, Attempt("b", now), n)) == Busy(cfg, StateAfter(cfg, before), now, n)
  {
    if n > 0 {
      CallsAreBusy(cfg, before, now, n - 1);
      OneMoreOther(cfg, Extended(before, Attempt("b", now), n - 1), now);
    }
  }

  lemma {:induction false} CallsLeaveTimes(cfg: Config, before: seq<Event>, now: int, n: nat)
    ensures AllowedTimes(cfg, Extended(before, Attempt("b", now), n), "a") == AllowedTimes(cfg, before, "a")
  {
    if n > 0 {
      CallsLeaveTimes(cfg, before, now, n - 1);
      OneMoreOther(cfg, Extended(before, Attempt("b", now), n - 1), now);
    }
  }

  lemma OneMoreOther(cfg: Config, before: seq<Event>, now: int)
    ensures StateAfter(cfg, before + [Attempt("b", now)]) == AfterAllow(cfg, StateAfter(cfg, before), "b", now).0
    ensures AllowedTimes(cfg, before + [Attempt("b", now)], "a") == AllowedTimes(cfg, before, "a")
  {
    assert (before + [Attempt("b", now)])[..|before|] == before;
  }

  /** A run that overflows a window longer than the bound allows. The quota of a key is used up
      at 0; a sweep with a clock beyond the window forgets it; a late call finds it free again. */
  lemma Overflowing(cfg: Config, late: nat, length: int) returns (events: seq<Event>)
    requires length >= 0 && length > cfg.Window() - late
    ensures LateBy(events, 0, late)
    ensures |InWindow(AllowedTimes(cfg, events, "a"), 0, length)| > cfg.Quota()
  {
    var quota := cfg.Quota();
    if cfg.Window() < 0 {
      events := Extended([], Attempt("a", 0), quota + 1);
      CallsAreLate([], Attempt("a", 0), quota + 1, 0, late);
      FirstCalls(cfg, quota + 1);
      AllInWindow(AllowedTimes(cfg, events, "a"), 0, length);
    } else {
      events := ForgottenRun(cfg, late);
      var behind := if late > cfg.Window() then 0 else cfg.Window() + 1 - late;
      AllInWindow(Zeros(quota) + [behind], 0, length);
    }
  }

  lemma ForgottenRun(cfg: Config, late: nat) returns (events: seq<Event>)
    requires cfg.Window() >= 0
    ensures LateBy(events, 0, late)
    ensures
      var behind := if late > cfg.Window() then 0 else cfg.Window() + 1 - late;
      AllowedTimes(cfg, events, "a") == Zeros(cfg.Quota()) + [behind]
  {
    var beyond := cfg.Window() + 1;
    var behind := if late > cfg.Window() then 0 else beyond - late;
    var swept := SweptRun(cfg, late);
    events := swept + [Attempt("a", behind)];
    assert events[..|events| - 1] == swept;
    SweepIsInvisible(cfg, StateAfter(cfg, swept), "a", behind);
    OneMoreAllowed(cfg, swept, "a", behind);
  }

  /** The quota of a key is used up, and a sweep has forgotten it. */
  lemma SweptRun(cfg: Config, late: nat) returns (events: seq<Event>)
    requires cfg.Window() >= 0
    ensures LateBy(events, 0, late) && High(events, 0) == cfg.Window() + 1
    ensures AllowedTimes(cfg, events, "a") == Zeros(cfg.Quota()) && DequeAfter(cfg, events, "a") == []
  {
    var quota, beyond := cfg.Quota(), cfg.Window() + 1;
    var used := Extended([], Attempt("a", 0), quota);
    events := Extended(used, Attempt("b", beyond), SWEEP_INTERVAL);
    CallsAreLate([], Attempt("a", 0), quota, 0, late);
    CallsAreLate(used, Attempt("b", beyond), SWEEP_INTERVAL, 0, late);
    FirstCalls(cfg, quota);
    RunKeepsAtZero(cfg, quota);
    CallsAreBusy(cfg, used, beyond, SWEEP_INTERVAL);
    CallsLeaveTimes(cfg, used, beyond, SWEEP_INTERVAL);
    BusySweeps(cfg, StateAfter(cfg, used), beyond, SWEEP_INTERVAL);
    PruneAll(DequeAfter(cfg, used, "a"), beyond, cfg.Window());
  }

  lemma {:induction false} AllInWindow(log: seq<int>, from: int, to: int)
    requires forall i :: 0 <= i < |log| ==> from <= log[i] <= to
    ensures |InWindow(log, from, to)| == |log|
  {
    if log != [] {
      var n := |log| - 1;
      AllInWindow(log[..n], from, to);
      assert InWindow(log, from, to) == InWindow(log[..n], from, to) + {n};
    }
  }

  /** Within ten seconds two attempts are allowed; calls at 0, 0, 11 and 5 seconds, in this
      order, are all allowed, three of them within ten seconds. */
  lemma OutOfOrderBreaksBound()
    ensures
      var cfg := Config(2, 10);
      var events := [Attempt("a", 0), Attempt("a", 0), Attempt("a", 11 * SECOND), Attempt("a", 5 * SECOND)];
      && LateBy(events, 0, 6 * SECOND)
      && AllowedTimes(cfg, events, "a") == [0, 0, 11 * SECOND, 5 * SECOND]
      && |InWindow(AllowedTimes(cfg, events, "a"), 0, 10 * SECOND)| == 3 > cfg.Quota()
  {
    var cfg := Config(2, 10);
    var two := [Attempt("a", 0), Attempt("a", 0)];
    var three := two + [Attempt("a", 11 * SECOND)];
    var four := three + [Attempt("a", 5 * SECOND)];
    ThreeUsed(cfg, two, three);
    FourUsed(cfg, three, four);
    FourAreLate(two, three, four);
    assert InWindow([0, 0, 11 * SECOND, 5 * SECOND], 0, 10 * SECOND) == {0, 1, 3};
    assert four == [Attempt("a", 0), Attempt("a", 0), Attempt("a", 11 * SECOND), Attempt("a", 5 * SECOND)];
  }

  lemma FourUsed(cfg: Config, three: seq<Event>, four: seq<Event>)
    requires cfg == Config(2, 10) && four == three + [Attempt("a", 5 * SECOND)]
    requires AllowedTimes(cfg, three, "a") == [0, 0, 11 * SECOND] && DequeAfter(cfg, three, "a") == [11 * SECOND]
    ensures AllowedTimes(cfg, four, "a") == [0, 0, 11 * SECOND, 5 * SECOND]
  {
    SweepIsInvisible(cfg, StateAfter(cfg, three), "a", 5 * SECOND);
    OneMoreAllowed(cfg, three, "a", 5 * SECOND);
  }

  lemma ThreeUsed(cfg: Config, two: seq<Event>, three: seq<Event>)
    requires cfg == Config(2, 10)
    requires two == [Attempt("a", 0), Attempt("a", 0)] && three == two + [Attempt("a", 11 * SECOND)]
    ensures AllowedTimes(cfg, three, "a") == [0, 0, 11 * SECOND] && DequeAfter(cfg, three, "a") == [11 * SECOND]
  {
    TwoUsed(cfg);
    assert three[..2] == two;
    SweepIsInvisible(cfg, StateAfter(cfg, two), "a", 11 * SECOND);
    PruneAll([0, 0], 11 * SECOND, cfg.Window());
    OneMoreAllowed(cfg, two, "a", 11 * SECOND);
    assert DequeAfter(cfg, three, "a") == [] + [11 * SECOND];
  }

  lemma TwoUsed(cfg: Config)
    requires cfg == Config(2, 10)
    ensures
      var two := [Attempt("a", 0), Attempt("a", 0)];
      AllowedTimes(cfg, two, "a") == [0, 0] && DequeAfter(cfg, two, "a") == [0, 0]
  {
    var one, two := [Attempt("a", 0)], [Attempt("a", 0), Attempt("a", 0)];
    assert one[..0] == [] && two[..1] == one;
    SweepIsInvisible(cfg, StateAfter(cfg, []), "a", 0);
    SweepIsInvisible(cfg, StateAfter(cfg, one), "a", 0);
    assert AllowedTimes(cfg, one, "a") == [] + [0] && DequeAfter(cfg, one, "a") == [] + [0];
  }

  lemma FourAreLate(two: seq<Event>, three: seq<Event>, four: seq<Event>)
    requires two == [Attempt("a", 0), Attempt("a", 0)]
    requires three == two + [Attempt("a", 11 * SECOND)] && four == three + [Attempt("a", 5 * SECOND)]
    ensures LateBy(four, 0, 6 * SECOND)
  {
    assert two[..1] == [Attempt("a", 0)] && two[..1][..0] == [];
    assert three[..2] == two && four[..3] == three;
    assert LateBy(two[..1], 0, 6 * SECOND) && High(two[..1], 0) == 0;
    assert LateBy(two, 0, 6 * SECOND) && High(two, 0) == 0;
  }

  // ---------------------------------------------------------- agreement with the reference

  predicate Ordered(log: seq<int>, last: int) {
    && (forall i, j :: 0 <= i <= j < |log| ==> log[i] <= log[j])
    && (forall i :: 0 <= i < |log| ==> log[i] <= last)
  }

  lemma {:induction false} TimesInOrder(cfg: Config, events: seq<Event>, start: int, key: string)
    requires InClockOrder(events, start)
    ensures Ordered(AllowedTimes(cfg, events, key), High(events, start))
    decreases |events|
  {
    if events != [] {
      TimesInOrder(cfg, events[..|events| - 1], start, key);
    }
  }

  /** Up to `k` the log has expired, from there on it has not. */
  ghost predicate Divides(log: seq<int>, k: nat, now: int, window: int) {
    && k <= |log|
    && (forall i :: 0 <= i < k ==> now - log[i] > window)
    && (forall i :: k <= i < |log| ==> now - log[i] <= window)
  }

  lemma {:induction false} RecentIsTail(log: seq<int>, last: int, now: int, window: int) returns (k: nat)
    requires Ordered(log, last)
    ensures Divides(log, k, now, window) && Recent(log, now, window) == log[k..]
  {
    if log == [] {
      k := 0;
    } else {
      var front, newest := log[..|log| - 1], log[|log| - 1];
      k := RecentIsTail(front, last, now, window);
      k := DividesOneMore(log, front, newest, k, last, now, window);
    }
  }

  lemma DividesOneMore(log: seq<int>, front: seq<int>, newest: int, k: nat, last: int, now: int, window: int)
    returns (k': nat)
    requires Ordered(log, last) && log == front + [newest] && Divides(front, k, now, window)
    ensures Divides(log, k', now, window)
    ensures log[k'..] == if now - newest > window then front[k..] else front[k..] + [newest]
  {
    assert log[|front|] == newest;
    forall i | 0 <= i < |front|
      ensures log[i] == front[i] <= newest
    {
      assert log[i] <= log[|front|];
    }
    assert k < |front| ==> now - newest <= now - front[k] <= window;
    if now - newest > window {
      k' := |log|;
    } else {
      k' := k;
    }
  }

  /** Pruning a live tail yields exactly the attempts that still count. */
  lemma PruneYieldsRecent(log: seq<int>, deque: seq<int>, last: int, now: int, window: int)
    requires Ordered(log, last) && last <= now && IsLiveTail(log, deque, last, window)
    ensures Prune(deque, now, window) == Recent(log, now, window)
  {
    var d: nat :| IsTailFrom(log, deque, last, window, d);
    var r := RecentIsTail(log, last, now, window);
    var p := PruneIsTail(deque, now, window);
    TailsMeet(log, d, p, r, now, window);
    assert deque[p..] == log[r..];
  }

  lemma TailsMeet(log: seq<int>, d: nat, p: nat, r: nat, now: int, window: int)
    requires d + p <= |log| && r <= |log|
    requires forall i :: 0 <= i < d ==> now - log[i] > window
    requires forall i :: 0 <= i < p ==> now - log[d..][i] > window
    requires p < |log| - d ==> now - log[d..][p] <= window
    requires forall i :: 0 <= i < r ==> now - log[i] > window
    requires forall i :: r <= i < |log| ==> now - log[i] <= window
    ensures d + p == r
  {
    assert r < |log| ==> now - log[r] <= window;
    assert d + p < |log| ==> log[d..][p] == log[d + p];
    assert d <= r < |log| ==> log[d..][r - d] == log[r];
  }

  /** In clock order the limiter decides as if it had kept every attempt it allowed. */
  lemma DecidesOnCompleteLog(cfg: Config, events: seq<Event>, start: int, key: string, now: int)
    requires InClockOrder(events, start) && High(events, start) <= now
    ensures AnswerTo(cfg, events, key, now) == Decision(cfg, AllowedTimes(cfg, events, key), now)
  {
    var log, deque := AllowedTimes(cfg, events, key), DequeAfter(cfg, events, key);
    RunKeeps(cfg, events, start, 0, key);
    TimesInOrder(cfg, events, start, key);
    SweepIsInvisible(cfg, StateAfter(cfg, events), key, now);
    PruneYieldsRecent(log, deque, High(events, start), now, cfg.Window());
  }

  /** For every run in clock order the limiter allows the attempts that the reference allows and
      answers the next call as it does: neither pruning nor sweeping ever changes an answer. */
  lemma {:induction false} LimiterFollowsReference(cfg: Config, events: seq<Event>, start: int, key: string)
    requires InClockOrder(events, start)
    ensures AllowedTimes(cfg, events, key) == ReferenceTimes(cfg, events, key)
    ensures forall now :: High(events, start) <= now ==>
              AnswerTo(cfg, events, key, now) == Decision(cfg, ReferenceTimes(cfg, events, key), now)
    decreases |events|
  {
    if events != [] {
      LimiterFollowsReference(cfg, events[..|events| - 1], start, key);
    }
    forall now | High(events, start) <= now
      ensures AnswerTo(cfg, events, key, now) == Decision(cfg, AllowedTimes(cfg, events, key), now)
    {
      DecidesOnCompleteLog(cfg, events, start, key, now);
    }
  }

  // ----------------------------------------------------------------------- retry-after

  lemma RetryAfterRoundsUp(oldest: int, now: int, window: int)
    requires now - oldest <= window
    ensures
      var r := RetryAfter(oldest, now, window);
      && r >= 1
      && (r - 1) * SECOND <= window - (now - oldest) <= r * SECOND
  {
  }

  /** A log that blocks now still blocks `retryAfter - 1` seconds later, and no longer more than
      `retryAfter` seconds later. */
  lemma DecisionLater(cfg: Config, log: seq<int>, last: int, now: int, later: int)
    requires Ordered(log, last) && last <= now <= later && Spread(log, cfg.Quota(), cfg.Window())
    requires Decision(cfg, log, now).Blocked?
    ensures
      var r := Decision(cfg, log, now).retryAfterSeconds;
      && r >= 1
      && (later <= now + (r - 1) * SECOND ==> Decision(cfg, log, later).Blocked?)
      && (later > now + r * SECOND ==> Decision(cfg, log, later).Allowed?)
  {
    var k := RecentIsTail(log, last, now, cfg.Window());
    var k' := RecentIsTail(log, last, later, cfg.Window());
    var oldest := Recent(log, now, cfg.Window())[0];
    assert oldest == log[k];
    RetryAfterRoundsUp(oldest, now, cfg.Window());
    var r := Decision(cfg, log, now).retryAfterSeconds;
    if later <= now + (r - 1) * SECOND {
      assert k' <= k;
    }
    if later > now + r * SECOND {
      assert k < k';
      assert |log| - k <= cfg.Quota();
    }
  }

  /** A run in which a call of a key is refused, and what follows it. */
  function Refusal(events: seq<Event>, key: string, now: int, more: seq<Event>): seq<Event> {
    events + [Attempt(key, now)] + more
  }

  lemma {:induction false} ClockOrderSplits(events: seq<Event>, more: seq<Event>, start: int)
    requires InClockOrder(events + more, start)
    ensures InClockOrder(events, start) && High(events, start) <= High(events + more, start)
    decreases |more|
  {
    var all := events + more;
    if more == [] {
      assert all == events;
    } else {
      assert all[..|all| - 1] == events + more[..|more| - 1];
      ClockOrderSplits(events, more[..|more| - 1], start);
    }
  }

  lemma RefusedNow(cfg: Config, events: seq<Event>, key: string, now: int, more: seq<Event>, start: int)
    requires InClockOrder(Refusal(events, key, now, more), start)
    ensures InClockOrder(events, start) && High(events, start) <= now <= High(Refusal(events, key, now, more), start)
  {
    var call := events + [Attempt(key, now)];
    ClockOrderSplits(call, more, start);
    assert call[..|call| - 1] == events;
  }

  /** What the limiter's answer to a refused call says of any later call while the log of the
      key has not changed. */
  lemma RefusedLater(cfg: Config, events: seq<Event>, key: string, now: int, more: seq<Event>, later: int, start: int)
    requires AnswerTo(cfg, events, key, now).Blocked?
    requires InClockOrder(Refusal(events, key, now, more), start)
    requires High(Refusal(events, key, now, more), start) <= later
    requires AllowedTimes(cfg, Refusal(events, key, now, more), key) == AllowedTimes(cfg, events, key)
    ensures
      var r := AnswerTo(cfg, events, key, now).retryAfterSeconds;
      && r >= 1
      && (later <= now + (r - 1) * SECOND ==> AnswerTo(cfg, Refusal(events, key, now, more), key, later).Blocked?)
      && (later > now + r * SECOND ==> AnswerTo(cfg, Refusal(events, key, now, more), key, later).Allowed?)
  {
    RefusedNow(cfg, events, key, now, more, start);
    DecidesOnCompleteLog(cfg, events, start, key, now);
    DecidesOnCompleteLog(cfg, Refusal(events, key, now, more), start, key, later);
    TimesInOrder(cfg, events, start, key);
    RunKeeps(cfg, events, start, 0, key);
    DecisionLater(cfg, AllowedTimes(cfg, events, key), High(events, start), now, later);
  }

  /** After a refusal, whatever calls follow in clock order within the announced time less a
      second, the limiter allows no attempt of the key unless the key is cleared. */
  lemma {:induction false} StaysBlocked(cfg: Config, events: seq<Event>, key: string, now: int, more: seq<Event>,
                                        start: int)
    requires AnswerTo(cfg, events, key, now).Blocked? && Clear(key) !in more
    requires InClockOrder(Refusal(events, key, now, more), start)
    requires
      var r := AnswerTo(cfg, events, key, now).retryAfterSeconds;
      High(Refusal(events, key, now, more), start) <= now + (r - 1) * 1_000_000_000
    ensures AllowedTimes(cfg, Refusal(events, key, now, more), key) == AllowedTimes(cfg, events, key)
    decreases |more|
  {
    var run := Refusal(events, key, now, more);
    if more == [] {
      assert run[..|run| - 1] == events;
    } else {
      var front, e := more[..|more| - 1], more[|more| - 1];
      assert run[..|run| - 1] == Refusal(events, key, now, front) && run[|run| - 1] == e;
      StaysBlocked(cfg, events, key, now, front, start);
      if e.Attempt? && e.key == key {
        RefusedLater(cfg, events, key, now, front, e.now, start);
      }
    }
  }

  /** The promise of a refusal, over any run that follows it in clock order without clearing the
      key: a call up to `retryAfter - 1` seconds later is refused, and the first call more than
      `retryAfter` seconds later is allowed, unless one was allowed before it. */
  lemma RetryAfterIsExact(cfg: Config, events: seq<Event>, key: string, now: int, more: seq<Event>, later: int,
                          start: int)
    requires AnswerTo(cfg, events, key, now).Blocked? && Clear(key) !in more
    requires InClockOrder(Refusal(events, key, now, more), start)
    requires High(Refusal(events, key, now, more), start) <= later
    ensures
      var r := AnswerTo(cfg, events, key, now).retryAfterSeconds;
      var run := Refusal(events, key, now, more);
      && (later <= now + (r - 1) * 1_000_000_000 ==> AnswerTo(cfg, run, key, later).Blocked?)
      && (later > now + r * 1_000_000_000 && AllowedTimes(cfg, run, key) == AllowedTimes(cfg, events, key) ==>
            AnswerTo(cfg, run, key, later).Allowed?)
  {
    var r := AnswerTo(cfg, events, key, now).retryAfterSeconds;
    if later <= now + (r - 1) * SECOND {
      StaysBlocked(cfg, events, key, now, more, start);
    }
    if AllowedTimes(cfg, Refusal(events, key, now, more), key) == AllowedTimes(cfg, events, key) {
      RefusedLater(cfg, events, key, now, more, later, start);
    }
  }
}
