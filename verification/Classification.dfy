/** From what the executor observed of a process to the verdict of a test case. */
module Classification {
  import opened JudgeStatus

  datatype Termination = LaunchFailure | Cancelled | MemoryExceeded | TimedOut | Signaled | NonZeroExit | Completed

  /** The observations of one process. */
  datatype ProcessResult = ProcessResult(
    launchError: bool,
    cancelled: bool,
    timedOut: bool,
    memoryExceeded: bool,
    exited: bool,
    exitCode: int,
    termSignal: int,
    output: string,
    outputTruncated: bool)

  datatype Verdict = Verdict(status: Status, globalDeadlineHit: bool, abortRemaining: bool)

  function ClassifyCase(p: ProcessResult, globalCapped: bool, outputMatches: bool): Verdict {
    if p.cancelled then Verdict(SYSERR, false, true)
    else if p.launchError then Verdict(SYSERR, false, true)
    else if p.memoryExceeded then Verdict(MLE, false, false)
    else if p.timedOut && globalCapped then Verdict(TLE, true, true)
    else if p.timedOut then Verdict(TLE, false, false)
    else if p.termSignal != 0 || (p.exited && p.exitCode != 0) || !p.exited then Verdict(RE, false, false)
    else if p.outputTruncated then Verdict(RE, false, false)
    else if outputMatches then Verdict(AC, false, false)
    else Verdict(WA, false, false)
  }

  /** The reason the executor records; it ranks a timeout above a memory overrun. */
  function TerminationOf(p: ProcessResult): Termination {
    if p.launchError then LaunchFailure
    else if p.cancelled then Cancelled
    else if p.timedOut then TimedOut
    else if p.memoryExceeded then MemoryExceeded
    else if p.exited && p.exitCode == 0 then Completed
    else if p.exited then NonZeroExit
    else if p.termSignal != 0 then Signaled
    else LaunchFailure
  }

  /** Each reason on the observations, a cause before the way the process ended. */
  lemma TerminationMeaning(p: ProcessResult)
    ensures
      var reason, stopped := TerminationOf(p), p.launchError || p.cancelled || p.timedOut || p.memoryExceeded;
      && (reason == Cancelled <==> !p.launchError && p.cancelled)
      && (reason == TimedOut <==> !p.launchError && !p.cancelled && p.timedOut)
      && (reason == MemoryExceeded <==> !p.launchError && !p.cancelled && !p.timedOut && p.memoryExceeded)
      && (reason == Completed <==> !stopped && p.exited && p.exitCode == 0)
      && (reason == NonZeroExit <==> !stopped && p.exited && p.exitCode != 0)
      && (reason == Signaled <==> !stopped && !p.exited && p.termSignal != 0)
      && (reason == LaunchFailure <==> p.launchError || (!stopped && !p.exited && p.termSignal == 0))
  {
  }

  /** The verdict that the recorded reason calls for. A process that was not launched is never
      the program's fault. */
  function StatusFor(reason: Termination, outputTruncated: bool, outputMatches: bool): Status {
    match reason
    case LaunchFailure => SYSERR
    case Cancelled => SYSERR
    case TimedOut => TLE
    case MemoryExceeded => MLE
    case Signaled => RE
    case NonZeroExit => RE
    case Completed => if outputTruncated then RE else if outputMatches then AC else WA
  }

  /** A process that did everything right. */
  predicate RanCleanly(p: ProcessResult) {
    && !p.launchError && !p.cancelled && !p.timedOut && !p.memoryExceeded
    && p.exited && p.exitCode == 0 && p.termSignal == 0 && !p.outputTruncated
  }

  predicate AtMostOneCause(p: ProcessResult) {
    !(p.cancelled && p.timedOut) && !(p.cancelled && p.memoryExceeded) && !(p.timedOut && p.memoryExceeded)
  }

  /** The recorded reason calls for the verdict given. */
  predicate ReasonFits(p: ProcessResult, globalCapped: bool, outputMatches: bool) {
    ClassifyCase(p, globalCapped, outputMatches).status
      == StatusFor(TerminationOf(p), p.outputTruncated, outputMatches)
  }

  /** It is known how the process ended. */
  predicate EndKnown(p: ProcessResult) {
    p.timedOut || p.memoryExceeded || p.exited || p.termSignal != 0
  }

  /** Of a process with one wait status, the reason and the verdict tell the same story exactly
      when it was not launched or was cancelled, or when it was not stopped for both time and
      memory and it is known how it ended. */
  lemma ReasonAndVerdictAgreeIff(p: ProcessResult, globalCapped: bool, outputMatches: bool)
    requires p.exited ==> p.termSignal == 0
    ensures ReasonFits(p, globalCapped, outputMatches) <==>
              p.launchError || p.cancelled || (!(p.timedOut && p.memoryExceeded) && EndKnown(p))
  {
  }

  /** Accepted means clean and matching; the run goes on exactly if the failure is the
      program's own. */
  lemma VerdictMeaning(p: ProcessResult, globalCapped: bool, outputMatches: bool)
    ensures
      var v := ClassifyCase(p, globalCapped, outputMatches);
      && (v.status == AC <==> RanCleanly(p) && outputMatches)
      && (v.status == WA <==> RanCleanly(p) && !outputMatches)
      && (v.status == SYSERR <==> p.cancelled || p.launchError)
      && (v.status == MLE <==> p.memoryExceeded && !p.cancelled && !p.launchError)
      && (v.status == TLE <==> p.timedOut && !p.memoryExceeded && !p.cancelled && !p.launchError)
      && (v.abortRemaining <==> p.cancelled || p.launchError || v.globalDeadlineHit)
      && (v.globalDeadlineHit ==> v.status == TLE && p.timedOut && globalCapped)
      && (v.status == TLE && !v.globalDeadlineHit ==> p.timedOut && !globalCapped)
      && v.status != CE
  {
  }
}

/** The executor's watch over a running process, with the process, the clock and the memory
    sampler as an arbitrary sequence of observations. */
module Executor {
  import opened JudgeStatus
  import opened Classification
  import opened Clock

  type Chunk = s: string | s != "" witness "x"

  datatype WaitStatus = Running | ExitedWith(code: int) | KilledBy(signal: int) | Lost

  /** What one turn read from a stream, and whether it then was at its end. */
  datatype Reading = Reading(chunks: seq<Chunk>, closed: bool)

  /** One turn of the event loop. */
  datatype Tick = Tick(wait: WaitStatus, now: int, cancelRequested: bool, rssKb: int, out: Reading, err: Reading)

  function Flatten(chunks: seq<Chunk>): string {
    if chunks == [] then "" else Flatten(chunks[..|chunks| - 1]) + chunks[|chunks| - 1]
  }

  /** The captured output of a stream under a limit. */
  predicate IsCapture(stream: string, limit: nat, buffer: string, truncated: bool) {
    && buffer == (if |stream| <= limit then stream else stream[..limit])
    && (truncated <==> |stream| > limit)
  }

  /** What of the data fits into the room left. */
  function Fitting(data: string, room: nat): string {
    if |data| <= room then data else data[..room]
  }

  method AppendBounded(buffer: string, data: Chunk, limit: nat, truncated: bool)
    returns (buffer': string, truncated': bool)
    ensures |buffer| <= limit ==> buffer' == buffer + Fitting(data, limit - |buffer|)
    ensures |buffer| > limit ==> buffer' == buffer
    ensures truncated' <==> truncated || |buffer| + |data| > limit
  {
    buffer', truncated' := buffer, truncated;
    if |buffer| >= limit {
      truncated' := true;
      assert |buffer| == limit ==> buffer + data[..0] == buffer;
      return;
    }
    var room := limit - |buffer|;
    var take := if |data| < room then |data| else room;
    buffer' := buffer + data[..take];
    if take < |data| {
      truncated' := true;
    }
  }

  lemma CaptureGrows(stream: string, data: Chunk, limit: nat, buffer: string, truncated: bool,
                     buffer': string, truncated': bool)
    requires IsCapture(stream, limit, buffer, truncated)
    requires buffer' == buffer + Fitting(data, limit - |buffer|)
    requires truncated' <==> truncated || |buffer| + |data| > limit
    ensures IsCapture(stream + data, limit, buffer', truncated')
  {
    if |stream| <= limit {
      if |data| > limit - |buffer| {
        assert (stream + data)[..limit] == stream + data[..limit - |stream|];
      } else {
        assert data[..|data|] == data;
      }
    } else {
      assert buffer + data[..0] == buffer;
      assert (stream + data)[..limit] == stream[..limit];
    }
  }

  lemma FlattenStep(stream: string, chunks: seq<Chunk>, k: nat)
    requires k < |chunks|
    ensures stream + Flatten(chunks[..k]) + chunks[k] == stream + Flatten(chunks[..k + 1])
  {
    assert chunks[..k + 1][..k] == chunks[..k];
    assert Flatten(chunks[..k + 1]) == Flatten(chunks[..k]) + chunks[k];
  }

  method ReadChunk(chunk: Chunk, limit: nat, buffer: string, truncated: bool, ghost stream: string)
    returns (buffer': string, truncated': bool)
    requires IsCapture(stream, limit, buffer, truncated)
    ensures IsCapture(stream + chunk, limit, buffer', truncated')
  {
    buffer', truncated' := AppendBounded(buffer, chunk, limit, truncated);
    CaptureGrows(stream, chunk, limit, buffer, truncated, buffer', truncated');
  }

  /** The chunks of one turn, whatever their sizes. */
  method ReadChunks(chunks: seq<Chunk>, limit: nat, buffer: string, truncated: bool, ghost stream: string)
    returns (buffer': string, truncated': bool)
    requires IsCapture(stream, limit, buffer, truncated)
    ensures IsCapture(stream + Flatten(chunks), limit, buffer', truncated')
  {
    buffer', truncated' := buffer, truncated;
    assert stream + "" == stream;
    for k := 0 to |chunks|
      invariant IsCapture(stream + Flatten(chunks[..k]), limit, buffer', truncated')
    {
      buffer', truncated' := ReadChunk(chunks[k], limit, buffer', truncated', stream + Flatten(chunks[..k]));
      FlattenStep(stream, chunks, k);
    }
    assert chunks[..|chunks|] == chunks;
  }

  datatype Stream = Output | Errors

  function ReadingOf(tick: Tick, stream: Stream): Reading {
    if stream.Output? then tick.out else tick.err
  }

  /** The stream reached its end within `n` turns. */
  predicate Closed(ticks: seq<Tick>, stream: Stream, n: nat)
    requires n <= |ticks|
  {
    n > 0 && (Closed(ticks, stream, n - 1) || ReadingOf(ticks[n - 1], stream).closed)
  }

  /** Everything a stream delivered in `n` turns before it was closed. */
  function StreamOf(ticks: seq<Tick>, stream: Stream, n: nat): string
    requires n <= |ticks|
  {
    if n == 0 then ""
    else if Closed(ticks, stream, n - 1) then StreamOf(ticks, stream, n - 1)
    else StreamOf(ticks, stream, n - 1) + Flatten(ReadingOf(ticks[n - 1], stream).chunks)
  }

  /** The reading end of a stream and what was kept of it. */
  datatype Capture = Capture(open: bool, buffer: string, truncated: bool)

  ghost predicate Follows(capture: Capture, ticks: seq<Tick>, stream: Stream, n: nat, limit: nat) {
    && n <= |ticks|
    && (capture.open <==> !Closed(ticks, stream, n))
    && IsCapture(StreamOf(ticks, stream, n), limit, capture.buffer, capture.truncated)
  }

  /** One turn of one stream; a closed stream is not read again. */
  method Drain(capture: Capture, reading: Reading, limit: nat,
               ghost ticks: seq<Tick>, ghost stream: Stream, ghost n: nat)
    returns (capture': Capture)
    requires Follows(capture, ticks, stream, n, limit) && n < |ticks| && reading == ReadingOf(ticks[n], stream)
    ensures Follows(capture', ticks, stream, n + 1, limit)
  {
    capture' := capture;
    if capture.open {
      var buffer, truncated :=
        ReadChunks(reading.chunks, limit, capture.buffer, capture.truncated, StreamOf(ticks, stream, n));
      capture' := Capture(!reading.closed, buffer, truncated);
    }
  }

  /** The first answer of the non-blocking wait in `n` turns that was not "still running". */
  function Reaped(ticks: seq<Tick>, n: nat): WaitStatus
    requires n <= |ticks|
  {
    if n == 0 then Running
    else if Reaped(ticks, n - 1).Running? then ticks[n - 1].wait
    else Reaped(ticks, n - 1)
  }

  /** The time of the turn in which the process was reaped. */
  function ReapedAt(ticks: seq<Tick>, n: nat, start: int): int
    requires n <= |ticks|
  {
    if n == 0 then start
    else if Reaped(ticks, n - 1).Running? && !ticks[n - 1].wait.Running? then ticks[n - 1].now
    else ReapedAt(ticks, n - 1, start)
  }

  /** The streams may be given up in turn `n`: both are closed, or one stayed open more than
      200 ms after the process was reaped. */
  ghost predicate DoneReading(ticks: seq<Tick>, n: nat, start: int, closed: bool) {
    && 0 < n <= |ticks| && !Reaped(ticks, n).Running?
    && (closed || ticks[n - 1].now - ReapedAt(ticks, n, start) > 200_000_000)
  }

  /** The non-blocking wait of one turn. */
  method Reap(status: WaitStatus, reapedAt: int, tick: Tick, ghost ticks: seq<Tick>, ghost k: nat, ghost start: int)
    returns (status': WaitStatus, reapedAt': int)
    requires k < |ticks| && tick == ticks[k] && status == Reaped(ticks, k) && reapedAt == ReapedAt(ticks, k, start)
    ensures status' == Reaped(ticks, k + 1) && reapedAt' == ReapedAt(ticks, k + 1, start)
  {
    status', reapedAt' := status, reapedAt;
    if status.Running? && !tick.wait.Running? {
      status', reapedAt' := tick.wait, tick.now;
    }
  }

  ghost predicate CancelSeen(ticks: seq<Tick>, k: nat) {
    k < |ticks| && ticks[k].cancelRequested
  }

  ghost predicate Overdue(ticks: seq<Tick>, k: nat, deadline: int) {
    k < |ticks| && Reaped(ticks, k + 1).Running? && ticks[k].now >= deadline
  }

  /** The process is alive and over its memory in turn `k`. */
  ghost predicate Overweight(ticks: seq<Tick>, k: nat, limitKb: int) {
    k < |ticks| && limitKb > 0 && Reaped(ticks, k + 1).Running? && ticks[k].rssKb > limitKb
  }

  /** The memory may go unsampled in turn `k`: it was, or may have been, sampled less than
      20 ms before. */
  ghost predicate SampledLately(ticks: seq<Tick>, k: nat, start: int)
    requires k < |ticks|
  {
    || ticks[k].now - start < 20_000_000
    || exists j: nat :: j < k && ticks[k].now - ticks[j].now < 20_000_000
  }

  /** No earlier turn had a reason to stop the process. */
  ghost predicate QuietBefore(ticks: seq<Tick>, n: nat, limits: Limits) {
    forall k: nat :: k < n ==> Harmless(ticks, k, limits)
  }

  ghost predicate Harmless(ticks: seq<Tick>, k: nat, limits: Limits) {
    && !CancelSeen(ticks, k)
    && !Overdue(ticks, k, limits.deadline)
    && (Overweight(ticks, k, limits.memoryKb) ==> SampledLately(ticks, k, limits.start))
  }

  /** What the watch raised, and the time of its last memory sample. */
  datatype Flags = Flags(cancelled: bool, timedOut: bool, memoryExceeded: bool, sampled: int)

  /** The limits a process is watched under. */
  datatype Limits = Limits(start: int, deadline: int, memoryKb: int)

  /** The flags name the first cause seen in the first `n` turns, cancellation before the
      time limit before the memory limit. */
  ghost predicate NamesFirstCause(ticks: seq<Tick>, n: nat, limits: Limits, f: Flags) {
    && (!f.cancelled && !f.timedOut && !f.memoryExceeded ==> QuietBefore(ticks, n, limits))
    && (f.cancelled ==> !f.timedOut && !f.memoryExceeded && exists k: nat :: k < n && StopsCancelled(ticks, k, limits))
    && (f.timedOut ==> !f.memoryExceeded && exists k: nat :: k < n && StopsOverdue(ticks, k, limits))
    && (f.memoryExceeded ==> exists k: nat :: k < n && StopsOverweight(ticks, k, limits))
  }

  ghost predicate StopsCancelled(ticks: seq<Tick>, k: nat, limits: Limits) {
    QuietBefore(ticks, k, limits) && CancelSeen(ticks, k)
  }

  ghost predicate StopsOverdue(ticks: seq<Tick>, k: nat, limits: Limits) {
    QuietBefore(ticks, k, limits) && !CancelSeen(ticks, k) && Overdue(ticks, k, limits.deadline)
  }

  ghost predicate StopsOverweight(ticks: seq<Tick>, k: nat, limits: Limits) {
    && QuietBefore(ticks, k, limits)
    && !CancelSeen(ticks, k) && !Overdue(ticks, k, limits.deadline) && Overweight(ticks, k, limits.memoryKb)
  }

  ghost predicate SampledAt(ticks: seq<Tick>, n: nat, limits: Limits, time: int)
    requires n <= |ticks|
  {
    time == limits.start || exists j: nat :: j < n && time == ticks[j].now
  }

  /** The checks of one turn. */
  method Inspect(ghost ticks: seq<Tick>, ghost k: nat, tick: Tick, reaped: bool, limits: Limits, f: Flags)
    returns (f': Flags)
    requires k < |ticks| && tick == ticks[k] && (reaped <==> !Reaped(ticks, k + 1).Running?)
    requires NamesFirstCause(ticks, k, limits, f) && SampledAt(ticks, k, limits, f.sampled)
    ensures NamesFirstCause(ticks, k + 1, limits, f') && SampledAt(ticks, k + 1, limits, f'.sampled)
  {
    f' := f;
    var killed := f.cancelled || f.timedOut || f.memoryExceeded;
    if !killed && tick.cancelRequested {
      f', killed := f'.(cancelled := true), true;
      assert StopsCancelled(ticks, k, limits);
    }
    if !killed && !reaped && tick.now >= limits.deadline {
      f', killed := f'.(timedOut := true), true;
      assert StopsOverdue(ticks, k, limits);
    }
    if !killed && limits.memoryKb > 0 && !reaped && tick.now - f.sampled >= 20 * MS {
      f' := f'.(sampled := tick.now);
      if tick.rssKb > limits.memoryKb {
        f', killed := f'.(memoryExceeded := true), true;
        assert StopsOverweight(ticks, k, limits);
      }
    }
    if !killed {
      assert Harmless(ticks, k, limits);
    }
  }

  ghost predicate Watched(ticks: seq<Tick>, n: nat, limits: Limits, f: Flags) {
    n <= |ticks| && NamesFirstCause(ticks, n, limits, f) && SampledAt(ticks, n, limits, f.sampled)
  }

  predicate ReportsStatus(p: ProcessResult, status: WaitStatus) {
    && (p.exited <==> status.ExitedWith?)
    && p.exitCode == (if status.ExitedWith? then status.code else 0)
    && p.termSignal == (if status.KilledBy? then status.signal else 0)
  }

  /** The event loop: it runs until the process is reaped and its streams are closed, or stayed
      open 200 ms longer; a poll failure ends the observations early. `seen` counts the turns
      begun, `checked` those in which the limits were checked and `read` those that were read
      from. */
  method Observe(ticks: seq<Tick>, limits: Limits, outLimit: nat, errLimit: nat)
    returns (status: WaitStatus, f: Flags, out: Capture, err: Capture, seen: nat, checked: nat, read: nat)
    ensures seen - 1 <= read <= checked <= seen <= |ticks|
    ensures status == Reaped(ticks, seen)
    ensures if read < seen then DoneReading(ticks, seen, limits.start, !out.open && !err.open) else seen == |ticks|
    ensures checked < seen ==> !out.open && !err.open
    ensures Watched(ticks, checked, limits, f)
    ensures Follows(out, ticks, Output, read, outLimit) && Follows(err, ticks, Errors, read, errLimit)
  {
    var reapedAt := limits.start;
    status, out := Running, Capture(true, "", false);
    f, err, seen, checked, read := Flags(false, false, false, limits.start), out, 0, 0, 0;
    while read < |ticks|
      invariant read == checked == seen <= |ticks|
      invariant status == Reaped(ticks, read) && reapedAt == ReapedAt(ticks, read, limits.start)
      invariant Follows(out, ticks, Output, read, outLimit) && Follows(err, ticks, Errors, read, errLimit)
      invariant Watched(ticks, read, limits, f)
    {
      var tick := ticks[read];
      status, reapedAt := Reap(status, reapedAt, tick, ticks, read, limits.start);
      seen := read + 1;
      if !status.Running? && !out.open && !err.open {
        break;
      }
      f := Inspect(ticks, read, tick, !status.Running?, limits, f);
      checked := seen;
      assert Watched(ticks, checked, limits, f);
      if !status.Running? && (out.open || err.open) && tick.now - reapedAt > 200 * MS {
        break;
      }
      out := Drain(out, tick.out, outLimit, ticks, Output, read);
      err := Drain(err, tick.err, errLimit, ticks, Errors, read);
      read := read + 1;
    }
  }

  /** What is reported of a process that was watched through `ticks`; `finalWait` is the
      blocking wait for one the loop did not reap. */
  method Watch(ticks: seq<Tick>, finalWait: WaitStatus, limits: Limits, outLimit: nat, errLimit: nat)
    returns (p: ProcessResult, f: Flags, err: Capture, seen: nat, checked: nat, read: nat)
    ensures seen - 1 <= read <= checked <= seen <= |ticks|
    ensures checked < seen ==> Closed(ticks, Output, read) && Closed(ticks, Errors, read)
    ensures
      var closed := Closed(ticks, Output, read) && Closed(ticks, Errors, read);
      if read < seen then DoneReading(ticks, seen, limits.start, closed) else seen == |ticks|
    ensures p.cancelled == f.cancelled && p.timedOut == f.timedOut && p.memoryExceeded == f.memoryExceeded
    ensures !p.launchError && AtMostOneCause(p) && NamesFirstCause(ticks, checked, limits, f)
    ensures forall capped, matches :: ReasonFits(p, capped, matches) <==> p.cancelled || EndKnown(p)
    ensures ReportsStatus(p, if Reaped(ticks, seen).Running? then finalWait else Reaped(ticks, seen))
    ensures IsCapture(StreamOf(ticks, Output, read), outLimit, p.output, p.outputTruncated)
    ensures IsCapture(StreamOf(ticks, Errors, read), errLimit, err.buffer, err.truncated)
  {
    var status, out;
    status, f, out, err, seen, checked, read := Observe(ticks, limits, outLimit, errLimit);
    if status.Running? {
      status := finalWait;
    }
    p := ProcessResult(false, f.cancelled, f.timedOut, f.memoryExceeded, status.ExitedWith?,
                       if status.ExitedWith? then status.code else 0,
                       if status.KilledBy? then status.signal else 0, out.buffer, out.truncated);
    forall capped, matches
      ensures ReasonFits(p, capped, matches) <==> p.cancelled || EndKnown(p)
    {
      ReasonAndVerdictAgreeIff(p, capped, matches);
    }
  }

  /** The run that fails: nothing stopped the process, its streams are closed, and its wait status
      was lost. The executor records a launch failure, and the verdict blames the program. */
  method LostStatusDisagrees(capped: bool, matches: bool) returns (p: ProcessResult)
    ensures TerminationOf(p) == LaunchFailure
    ensures ClassifyCase(p, capped, matches).status == RE && !ReasonFits(p, capped, matches)
  {
    var done := Reading([], true);
    var ticks := [Tick(Lost, 0, false, 0, done, done), Tick(Lost, 0, false, 0, done, done)];
    var f, err, seen, checked, read;
    p, f, err, seen, checked, read := Watch(ticks, Lost, Limits(0, 1, 0), 0, 0);
    assert Reaped(ticks, 0) == Running && Reaped(ticks, 1) == Lost && Reaped(ticks, 2) == Lost;
    assert forall k: nat :: !CancelSeen(ticks, k) && !Overdue(ticks, k, 1) && !Overweight(ticks, k, 0);
  }
}
