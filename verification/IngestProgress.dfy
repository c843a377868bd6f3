/** What the ingest runtime still does, and when it no longer can (ingest/core/ws.py, ingest/runner.py).

    Safety bounds what a run may do from above. The results here bound it from below: the reconnect loop goes
    on until it is asked to stop, what a repair brought is put once, waiting ends when there is room, and a
    runtime whose drain is alive can always be shut down with nothing left behind. */
module IngestProgress {
  import opened Prelude
  import opened IngestProtocol
  import opened IngestSafety

  lemma {:induction false} RunAppend(c: Config, s: State, a: seq<Step>, b: seq<Step>)
    requires IsRun(c, s, a) && IsRun(c, Exec(c, s, a), b)
    ensures IsRun(c, s, a + b) && Exec(c, s, a + b) == Exec(c, Exec(c, s, a), b)
    decreases |a|
  {
    if a == [] {
      assert a + b == b;
    } else {
      RunAppend(c, Apply(c, s, a[0]), a[1..], b);
      assert (a + b)[1..] == a[1..] + b;
    }
  }

  predicate Only(steps: seq<Step>, allowed: Step -> bool) { forall step <- steps :: allowed(step) }

  predicate AnyStep(step: Step) { true }

  /** `s'` can follow `s` by allowed steps. */
  ghost predicate LeadsTo(c: Config, s: State, s': State, allowed: Step -> bool)
  {
    exists steps :: IsRun(c, s, steps) && Only(steps, allowed) && Exec(c, s, steps) == s'
  }

  lemma Stay(c: Config, s: State, allowed: Step -> bool)
    ensures LeadsTo(c, s, s, allowed)
  {
    assert IsRun(c, s, []) && Only([], allowed) && Exec(c, s, []) == s;
  }

  lemma Chain(c: Config, s: State, mid: State, s': State, allowed: Step -> bool)
    requires LeadsTo(c, s, mid, allowed) && LeadsTo(c, mid, s', allowed)
    ensures LeadsTo(c, s, s', allowed)
  {
    var a :| IsRun(c, s, a) && Only(a, allowed) && Exec(c, s, a) == mid;
    var b :| IsRun(c, mid, b) && Only(b, allowed) && Exec(c, mid, b) == s';
    RunAppend(c, s, a, b);
    assert Only(a + b, allowed);
  }

  lemma Next(c: Config, s: State, mid: State, step: Step, allowed: Step -> bool) returns (s': State)
    requires LeadsTo(c, s, mid, allowed) && Enabled(c, mid, step) && allowed(step)
    ensures s' == Apply(c, mid, step) && LeadsTo(c, s, s', allowed)
  {
    s' := Apply(c, mid, step);
    RunSnoc(c, mid, [], step);
    assert IsRun(c, mid, [step]) && Only([step], allowed) && Exec(c, mid, [step]) == s' by { assert [] + [step] == [step]; }
    Chain(c, s, mid, s', allowed);
  }

  // The reconnect loop.

  /** Some continuation starts another session. */
  ghost predicate CanReconnect(c: Config, s: State)
  {
    exists s' :: LeadsTo(c, s, s', AnyStep) && s'.socket.sessions > s.socket.sessions
  }

  /** A session can always be ended: its frame is handled up to the first put that waits, and the rest is dropped. */
  lemma {:induction false} SessionCanEnd(c: Config, s: State) returns (s': State)
    requires s.socket.phase.Pumping?
    ensures LeadsTo(c, s, s', AnyStep) && s'.socket.phase.AtLoop? && s'.stop == s.stop && s'.socket.sessions == s.socket.sessions
    decreases |s.socket.phase.frame|
  {
    Stay(c, s, AnyStep);
    if s.socket.phase.blocked.Some? || s.socket.phase.frame == [] {
      s' := Next(c, s, s, CancelPump(true), AnyStep);
    } else {
      var mid := Next(c, s, s, ObserveNext, AnyStep);
      s' := SessionCanEnd(c, mid);
      Chain(c, s, mid, s', AnyStep);
    }
  }

  /** Unless it was asked to stop, the loop gets to its next session from wherever it is. */
  lemma SessionCanStart(c: Config, s: State) returns (s': State)
    requires SocketInv(s.socket, s.stop)
    requires !s.stop || s.socket.phase.Dialing? || s.socket.phase.Subscribing?
    ensures LeadsTo(c, s, s', AnyStep) && s'.stop == s.stop
    ensures s'.socket.phase == Pumping([], None) && s'.socket.sessions == s.socket.sessions + 1
  {
    Stay(c, s, AnyStep);
    s' := s;
    if s'.socket.phase.Pumping? {
      s' := SessionCanEnd(c, s);
    }
    if s'.socket.phase.Sleeping? {
      s' := Next(c, s, s', WakeUp, AnyStep);
    }
    if s'.socket.phase.AtLoop? {
      s' := Next(c, s, s', LoopCheck, AnyStep);
    }
    if s'.socket.phase.Dialing? {
      s' := Next(c, s, s', Dial(true), AnyStep);
    }
    s' := Next(c, s, s', Subscribe(true), AnyStep);
  }

  /** Asked to stop, and not on its way into a session. */
  predicate LastSession(s: State) { s.stop && !s.socket.phase.Dialing? && !s.socket.phase.Subscribing? }

  lemma {:induction false} NoMoreSessions(c: Config, s: State, steps: seq<Step>)
    requires LastSession(s) && IsRun(c, s, steps)
    ensures LastSession(Exec(c, s, steps)) && Exec(c, s, steps).socket.sessions == s.socket.sessions
    decreases |steps|
  {
    if steps != [] {
      NoMoreSessions(c, Apply(c, s, steps[0]), steps[1..]);
    }
  }

  /** The reconnect loop never gives up: from a reachable state another session can start exactly when the loop
      was not asked to stop, or is dialing or subscribing already. */
  lemma ReconnectsExactlyWhen(c: Config, s: State)
    requires Reachable(c, s)
    ensures CanReconnect(c, s) <==> !s.stop || s.socket.phase.Dialing? || s.socket.phase.Subscribing?
  {
    ReachableInv(c, s);
    if LastSession(s) {
      forall s' | LeadsTo(c, s, s', AnyStep) ensures s'.socket.sessions == s.socket.sessions {
        var steps :| IsRun(c, s, steps) && Only(steps, AnyStep) && Exec(c, s, steps) == s';
        NoMoreSessions(c, s, steps);
      }
    } else {
      var s' := SessionCanStart(c, s);
    }
  }

  // How often it dials and how often it sleeps.

  /** A session, or the attempt at one, ended with an exception. */
  predicate Raises(step: Step)
  {
    match step
    case Dial(ok) => !ok
    case Subscribe(ok) => !ok
    case SocketClosed(closeOk) => !closeOk
    case PumpRaise => true
    case CancelPump(closeOk) => !closeOk
    case _ => false
  }

  /** It ended without one. */
  predicate EndsCleanly(step: Step) { (step.SocketClosed? || step.CancelPump?) && step.closeOk }

  function Count(steps: seq<Step>, counted: Step -> bool): nat
  {
    if steps == [] then 0 else Count(steps[..|steps| - 1], counted) + One(counted(steps[|steps| - 1]))
  }

  predicate IsDial(step: Step) { step.Dial? }

  predicate IsWakeUp(step: Step) { step.WakeUp? }

  /** Before the dial of an attempt. */
  predicate Between(phase: Phase) { phase.AtLoop? || phase.Dialing? || phase.Sleeping? }

  function One(b: bool): nat { if b then 1 else 0 }

  /** Every attempt that raised was followed by one sleep, no other was, and after each attempt there is
      another. */
  predicate LoopBooks(steps: seq<Step>, phase: Phase)
  {
    && Count(steps, IsWakeUp) + One(phase.Sleeping?) == Count(steps, Raises)
    && Count(steps, IsDial) + One(Between(phase)) == 1 + Count(steps, Raises) + Count(steps, EndsCleanly)
  }

  lemma {:induction false} RunInit(c: Config, s: State, steps: seq<Step>)
    requires IsRun(c, s, steps) && steps != []
    ensures var before, last := steps[..|steps| - 1], steps[|steps| - 1];
            IsRun(c, s, before) && Enabled(c, Exec(c, s, before), last)
            && Exec(c, s, steps) == Apply(c, Exec(c, s, before), last)
    decreases |steps|
  {
    if |steps| > 1 {
      RunInit(c, Apply(c, s, steps[0]), steps[1..]);
      assert steps[1..][..|steps| - 2] == steps[..|steps| - 1][1..];
    }
  }

  /** What one step does to the loop while it is not asked to stop. */
  lemma OneLoopStep(c: Config, s: State, step: Step)
    requires Enabled(c, s, step) && !s.stop && !step.SetStop?
    ensures var phase, phase' := s.socket.phase, Apply(c, s, step).socket.phase;
            && One(IsWakeUp(step)) + One(phase'.Sleeping?) == One(Raises(step)) + One(phase.Sleeping?)
            && One(IsDial(step)) + One(Between(phase')) == One(Between(phase)) + One(Raises(step)) + One(EndsCleanly(step))
  {
  }

  /** Over every run that was not asked to stop, a failed session is followed by exactly one sleep and a clean
      end by none, and either is followed by the next dial. */
  lemma {:induction false} EveryAttemptIsFollowed(c: Config, steps: seq<Step>)
    requires IsRun(c, START, steps) && !Exec(c, START, steps).stop
    ensures LoopBooks(steps, Exec(c, START, steps).socket.phase)
    decreases |steps|
  {
    if steps != [] {
      var before, last := steps[..|steps| - 1], steps[|steps| - 1];
      RunInit(c, START, steps);
      StopStays(c, Exec(c, START, before), last);
      EveryAttemptIsFollowed(c, before);
      OneLoopStep(c, Exec(c, START, before), last);
    }
  }

  lemma StopStays(c: Config, s: State, step: Step)
    requires Enabled(c, s, step) && !Apply(c, s, step).stop
    ensures !s.stop && !step.SetStop?
  {
  }

  /** Once asked to stop, the loop begins no sleep: a run wakes up at most from the one it was in. */
  lemma {:induction false} NoSleepAfterStop(c: Config, s: State, steps: seq<Step>)
    requires s.stop && IsRun(c, s, steps)
    ensures Count(steps, IsWakeUp) + One(Exec(c, s, steps).socket.phase.Sleeping?) <= One(s.socket.phase.Sleeping?)
    ensures Exec(c, s, steps).stop
    decreases |steps|
  {
    if steps != [] {
      RunInit(c, s, steps);
      NoSleepAfterStop(c, s, steps[..|steps| - 1]);
      StoppedStep(c, Exec(c, s, steps[..|steps| - 1]), steps[|steps| - 1]);
    }
  }

  lemma StoppedStep(c: Config, s: State, step: Step)
    requires Enabled(c, s, step) && s.stop
    ensures One(IsWakeUp(step)) + One(Apply(c, s, step).socket.phase.Sleeping?) <= One(s.socket.phase.Sleeping?)
    ensures Apply(c, s, step).stop
  {
  }

  // Waiting for room.

  /** Observing a trade leaves the pump waiting exactly when the queue holds as many trades as it may. */
  lemma PumpWaitsExactlyWhenFull(c: Config, s: State)
    requires Reachable(c, s) && Enabled(c, s, ObserveNext)
    ensures Apply(c, s, ObserveNext).socket.phase.blocked.Some? <==> 0 < c.maxsize == |s.pipe.queue|
  {
    ReachableInv(c, s);
  }

  /** A turn of drain in which the sink did not raise. */
  predicate DrainTurn(step: Step)
  {
    match step
    case DrainStart(flushOk) => flushOk
    case DrainIdle(pollOk, flushOk) => pollOk && flushOk
    case DrainTake(outcome, flushOk) => outcome.Published? && flushOk
    case _ => false
  }

  /** Drain returns at the first head of its loop that finds stop set and the queue empty, having flushed, and
      waits for trades otherwise. */
  lemma DrainReturnsExactlyWhen(c: Config, s: State, step: Step)
    requires Enabled(c, s, step) && DrainTurn(step)
    ensures var pipe := Apply(c, s, step).pipe;
            && (pipe.drain.Returned? <==> s.stop && |s.pipe.queue| == if step.DrainTake? then 1 else 0)
            && (pipe.drain.Waiting? <==> !pipe.drain.Returned?)
            && pipe.sinkOps == s.pipe.sinkOps + CallsOf(s, step) + if pipe.drain.Returned? then [Flush] else []
  {
  }

  /** The sink calls before the loop's test: a poll each turn, after the trade taken. */
  function CallsOf(s: State, step: Step): seq<SinkOp>
  {
    if step.DrainTake? && s.pipe.queue != [] then [Produce(s.pipe.queue[0]), Poll]
    else if step.DrainIdle? then [Poll] else []
  }

  predicate DrainEnded(s: State) { s.pipe.drain.Returned? || s.pipe.drain.Dead? }

  /** Some continuation ends the repair task. */
  ghost predicate CanFinishRepair(c: Config, s: State, id: nat)
  {
    exists s' :: LeadsTo(c, s, s', AnyStep) && id !in s'.repairs.tasks
  }

  predicate Fits(c: Config, s: State, n: nat) { c.maxsize <= 0 || |s.pipe.queue| + n <= c.maxsize }

  predicate IsPutting(s: State, id: nat) { id in s.repairs.tasks && s.repairs.tasks[id].Putting? }

  lemma {:induction false} RepairFinishes(c: Config, s: State, id: nat) returns (s': State)
    requires IsPutting(s, id) && s.repairs.tasks[id].rest != [] && Fits(c, s, |s.repairs.tasks[id].rest|)
    ensures LeadsTo(c, s, s', AnyStep) && id !in s'.repairs.tasks
    decreases |s.repairs.tasks[id].rest|
  {
    Stay(c, s, AnyStep);
    s' := Next(c, s, s, RepairPut(id), AnyStep);
    if id in s'.repairs.tasks {
      var end := RepairFinishes(c, s', id);
      Chain(c, s, s', end, AnyStep);
      s' := end;
    }
  }

  predicate Stuck(c: Config, s: State, id: nat)
  {
    DrainEnded(s) && IsPutting(s, id) && id < |s.watch.reports| && !Fits(c, s, |s.repairs.tasks[id].rest|)
  }

  lemma StuckStep(c: Config, s: State, step: Step, id: nat)
    requires Stuck(c, s, id) && Enabled(c, s, step)
    ensures Stuck(c, Apply(c, s, step), id)
  {
  }

  lemma {:induction false} StuckForGood(c: Config, s: State, steps: seq<Step>, id: nat)
    requires Stuck(c, s, id) && IsRun(c, s, steps)
    ensures Stuck(c, Exec(c, s, steps), id)
    decreases |steps|
  {
    if steps != [] {
      StuckStep(c, s, steps[0], id);
      StuckForGood(c, Apply(c, s, steps[0]), steps[1..], id);
    }
  }

  /** Once drain has returned or died, a repair task with trades to put can end exactly when all of them fit
      behind what the queue holds. */
  lemma RepairFinishesExactlyWhen(c: Config, s: State, id: nat)
    requires Reachable(c, s) && DrainEnded(s) && IsPutting(s, id)
    ensures CanFinishRepair(c, s, id) <==> Fits(c, s, |s.repairs.tasks[id].rest|)
  {
    ReachableInv(c, s);
    if Fits(c, s, |s.repairs.tasks[id].rest|) {
      var s' := RepairFinishes(c, s, id);
    } else {
      forall s' | LeadsTo(c, s, s', AnyStep) ensures id in s'.repairs.tasks {
        var steps :| IsRun(c, s, steps) && Only(steps, AnyStep) && Exec(c, s, steps) == s';
        StuckForGood(c, s, steps, id);
      }
    }
  }
}
