/** Reconnect delays (ingest/core/ws.py: backoff_delays and its use in ResilientWebSocket.run). */
module Backoff {
  import opened Prelude

  function Pow2(k: nat): real { if k == 0 then 1.0 else 2.0 * Pow2(k - 1) }

  /** How a session ended: cleanly, or with an exception, after which a jitter is drawn. */
  datatype SessionEnd = Clean | Failed(jitter: real)

  /** Failures since the last clean end. */
  function Streak(ends: seq<SessionEnd>): nat
  {
    if ends == [] || ends[|ends| - 1].Clean? then 0 else Streak(ends[..|ends| - 1]) + 1
  }

  class ReconnectDelays {
    const maxBackoff: real
    var delay: real
    ghost var ends: seq<SessionEnd>

    /** The generator's state is the number of failures since it was last replaced. */
    ghost predicate Valid()
      reads this
    {
      delay == if Streak(ends) == 0 then 1.0 else Min(Pow2(Streak(ends)), maxBackoff)
    }

    constructor (maxBackoff: real)
      ensures Valid() && ends == [] && this.maxBackoff == maxBackoff
    {
      this.maxBackoff, delay, ends := maxBackoff, 1.0, [];
    }

    /** A clean end replaces the generator. */
    method EndedCleanly()
      modifies this
      ensures Valid() && ends == old(ends) + [Clean]
    {
      delay, ends := 1.0, ends + [Clean];
    }

    /** A failed session sleeps for the generator's next value. With k failures before it since the last clean
        end that is 2^k seconds, lengthened by the jitter and cut at max; so it lies between min(2^k, max) and
        max, whatever the jitter. */
    method SessionFailed(jitter: real) returns (seconds: real)
      requires Valid() && maxBackoff >= 0.0 && jitter >= 0.0
      modifies this
      ensures Valid() && ends == old(ends) + [Failed(jitter)]
      ensures seconds == Delay(maxBackoff, Streak(old(ends)), jitter)
      ensures Min(Pow2(Streak(old(ends))), maxBackoff) <= seconds <= maxBackoff
    {
      JitterOnlyAdds(delay, jitter);
      JitterOnlyAdds(Pow2(Streak(ends)), jitter);
      Pow2IsPositive(Streak(ends));
      seconds := Min(delay * (1.0 + jitter), maxBackoff);
      delay := Min(delay * 2.0, maxBackoff);
      assert (ends + [Failed(jitter)])[..|ends|] == ends;
      ends := ends + [Failed(jitter)];
    }
  }

  lemma Pow2IsPositive(k: nat)
    ensures Pow2(k) >= 1.0
  {
  }

  lemma JitterOnlyAdds(delay: real, jitter: real)
    requires jitter >= 0.0
    ensures delay >= 0.0 ==> delay * (1.0 + jitter) >= delay
  {
    if delay >= 0.0 {
      assert delay * jitter >= 0.0;
      assert delay * (1.0 + jitter) == delay + delay * jitter;
    }
  }

  // The loop of ResilientWebSocket.run over its sessions.

  /** When the stop event was set, seen from one turn of the loop. */
  datatype StopSet = NotYet | DuringSession | DuringSleep

  /** One turn: how its session ended, and whether the stop event was set by then, or during the sleep after it. */
  datatype Turn = Turn(end: SessionEnd, stop: StopSet)

  /** What one failed session sleeps, `k` failures after the last clean end: 2^k seconds, lengthened by the
      jitter and cut at max. */
  function Delay(maxBackoff: real, k: nat, jitter: real): real { Min(Pow2(k) * (1.0 + jitter), maxBackoff) }

  /** The sleep of one turn: only a failure that did not find the stop event set has one. */
  function SleepOf(maxBackoff: real, k: nat, turn: Turn): seq<real>
  {
    if turn.end.Failed? && !turn.stop.DuringSession? then [Delay(maxBackoff, k, turn.end.jitter)] else []
  }

  /** The sleeps of the turns to come, `k` failures after the last clean end, up to the one that was asked to stop. */
  function Sleeps(maxBackoff: real, k: nat, turns: seq<Turn>): seq<real>
    decreases |turns|
  {
    if turns == [] then [] else
      SleepOf(maxBackoff, k, turns[0])
      + if turns[0].stop.NotYet? then Sleeps(maxBackoff, if turns[0].end.Clean? then 0 else k + 1, turns[1..]) else []
  }

  predicate Jitters(turns: seq<Turn>) { forall turn <- turns :: turn.end.Failed? ==> turn.end.jitter >= 0.0 }

  predicate NoneStops(turns: seq<Turn>) { forall turn <- turns :: turn.stop.NotYet? }

  /** Failures since the last clean end, after more turns. */
  function StreakAfter(k: nat, turns: seq<Turn>): nat
    decreases |turns|
  {
    if turns == [] then k else StreakAfter(if turns[0].end.Clean? then 0 else k + 1, turns[1..])
  }

  lemma {:induction false} SleepsAppend(maxBackoff: real, k: nat, a: seq<Turn>, b: seq<Turn>)
    requires NoneStops(a)
    ensures Sleeps(maxBackoff, k, a + b) == Sleeps(maxBackoff, k, a) + Sleeps(maxBackoff, StreakAfter(k, a), b)
    decreases |a|
  {
    if a == [] {
      assert a + b == b;
    } else {
      assert a[0] in a && (a + b)[1..] == a[1..] + b;
      SleepsAppend(maxBackoff, if a[0].end.Clean? then 0 else k + 1, a[1..], b);
    }
  }

  lemma {:induction false} StreakAfterAppend(k: nat, a: seq<Turn>, b: seq<Turn>)
    ensures StreakAfter(k, a + b) == StreakAfter(StreakAfter(k, a), b)
    decreases |a|
  {
    if a == [] {
      assert a + b == b;
    } else {
      assert (a + b)[1..] == a[1..] + b;
      StreakAfterAppend(if a[0].end.Clean? then 0 else k + 1, a[1..], b);
    }
  }

  lemma {:induction false} FailuresAddUp(k: nat, failures: seq<Turn>)
    requires forall turn <- failures :: turn.end.Failed?
    ensures StreakAfter(k, failures) == k + |failures|
    decreases |failures|
  {
    if failures != [] {
      assert failures[0] in failures;
      FailuresAddUp(k + 1, failures[1..]);
    }
  }

  /** Whatever came before, the session that fails after k failures in a row, counted from the start or from the
      last clean end, sleeps its delay; one that finds the stop event set does not sleep. */
  lemma KthFailureSleeps(maxBackoff: real, before: seq<Turn>, failures: seq<Turn>, last: Turn)
    requires before == [] || before[|before| - 1].end.Clean?
    requires NoneStops(before + failures) && (forall turn <- failures :: turn.end.Failed?) && last.end.Failed?
    ensures Sleeps(maxBackoff, 0, before + failures + [last])
            == Sleeps(maxBackoff, 0, before + failures)
               + if last.stop.DuringSession? then []
                 else [Delay(maxBackoff, |failures|, last.end.jitter)]
  {
    SleepsAppend(maxBackoff, 0, before + failures, [last]);
    StreakSinceCleanEnd(before, failures);
    LastSleeps(maxBackoff, |failures|, last);
  }

  lemma StreakSinceCleanEnd(before: seq<Turn>, failures: seq<Turn>)
    requires before == [] || before[|before| - 1].end.Clean?
    requires forall turn <- failures :: turn.end.Failed?
    ensures StreakAfter(0, before + failures) == |failures|
  {
    StreakAfterAppend(0, before, failures);
    if before != [] {
      assert before == before[..|before| - 1] + [before[|before| - 1]];
      StreakAfterAppend(0, before[..|before| - 1], [before[|before| - 1]]);
    }
    FailuresAddUp(0, failures);
  }

  lemma LastSleeps(maxBackoff: real, k: nat, last: Turn)
    requires last.end.Failed?
    ensures Sleeps(maxBackoff, k, [last])
            == if last.stop.DuringSession? then [] else [Delay(maxBackoff, k, last.end.jitter)]
  {
    assert [last][1..] == [] && SleepOf(maxBackoff, k, last) + [] == SleepOf(maxBackoff, k, last);
  }

  /** A delay is 2^k seconds and the jitter's share of them, or max where that is less. */
  lemma DelayIsExact(maxBackoff: real, k: nat, jitter: real)
    ensures Delay(maxBackoff, k, jitter) <= maxBackoff
    ensures Delay(maxBackoff, k, jitter) < maxBackoff ==> Delay(maxBackoff, k, jitter) - Pow2(k) == Pow2(k) * jitter
    ensures Pow2(k) + Pow2(k) * jitter >= maxBackoff ==> Delay(maxBackoff, k, jitter) == maxBackoff
  {
    assert Pow2(k) * (1.0 + jitter) == Pow2(k) + Pow2(k) * jitter;
  }

  lemma StreakSnoc(ends: seq<SessionEnd>, end: SessionEnd)
    ensures Streak(ends + [end]) == if end.Clean? then 0 else Streak(ends) + 1
  {
    assert (ends + [end])[..|ends|] == ends;
  }

  /** One turn of the loop of `run`, after its session. */
  method AfterSession(delays: ReconnectDelays, turn: Turn) returns (slept: seq<real>)
    requires delays.Valid() && delays.maxBackoff >= 0.0 && (turn.end.Failed? ==> turn.end.jitter >= 0.0)
    modifies delays
    ensures delays.Valid() && slept == SleepOf(delays.maxBackoff, Streak(old(delays.ends)), turn)
    ensures turn.stop.NotYet? ==>
              Streak(delays.ends) == if turn.end.Clean? then 0 else Streak(old(delays.ends)) + 1
  {
    StreakSnoc(delays.ends, turn.end);
    slept := [];
    if turn.end.Clean? {
      delays.EndedCleanly();
    } else {
      if turn.stop.DuringSession? {
        return;
      }
      var seconds := delays.SessionFailed(turn.end.jitter);
      slept := [seconds];
    }
  }

  /** Was the stop event set once `used` sessions were over? */
  predicate IsSet(turns: seq<Turn>, used: nat)
    requires used <= |turns|
  {
    used > 0 && !turns[used - 1].stop.NotYet?
  }

  predicate NeverSetBefore(turns: seq<Turn>, used: nat)
    requires used <= |turns|
  {
    forall i :: 0 <= i < used ==> !IsSet(turns, i)
  }

  /** After `used` sessions the stop event had not been set earlier, and `slept` lacks only the sleeps to come. */
  ghost predicate After(all: seq<real>, slept: seq<real>, maxBackoff: real, k: nat, turns: seq<Turn>, used: nat)
    requires used <= |turns|
  {
    && NeverSetBefore(turns, used)
    && all == slept + if IsSet(turns, used) then [] else Sleeps(maxBackoff, k, turns[used..])
  }

  lemma TurnIsPaid(all: seq<real>, slept: seq<real>, maxBackoff: real, k: nat, turns: seq<Turn>, used: nat, next: nat)
    requires used < |turns| && After(all, slept, maxBackoff, k, turns, used) && !IsSet(turns, used)
    requires turns[used].stop.NotYet? ==> next == if turns[used].end.Clean? then 0 else k + 1
    ensures After(all, slept + SleepOf(maxBackoff, k, turns[used]), maxBackoff, next, turns, used + 1)
  {
    assert turns[used..][1..] == turns[used + 1..];
  }

  lemma BeforeAnyTurn(maxBackoff: real, turns: seq<Turn>)
    ensures After(Sleeps(maxBackoff, 0, turns), [], maxBackoff, 0, turns, 0)
  {
    assert turns[0..] == turns;
  }

  lemma AllIsPaid(all: seq<real>, slept: seq<real>, maxBackoff: real, k: nat, turns: seq<Turn>, used: nat)
    requires used <= |turns| && After(all, slept, maxBackoff, k, turns, used)
    requires used == |turns| || IsSet(turns, used)
    ensures slept == all && NeverSetBefore(turns, used)
  {
    assert slept + [] == slept;
  }

  /** `run`, given how its sessions go. `used` says how many sessions there were: it stops after the first during
      or after which the stop event was set, and the sleeps are exactly one for each failure before that. */
  method RunLoop(maxBackoff: real, turns: seq<Turn>) returns (slept: seq<real>, used: nat)
    requires maxBackoff >= 0.0 && Jitters(turns)
    ensures slept == Sleeps(maxBackoff, 0, turns)
    ensures used <= |turns| && NeverSetBefore(turns, used) && (used < |turns| ==> IsSet(turns, used))
  {
    var delays := new ReconnectDelays(maxBackoff);
    slept, used := [], 0;
    ghost var all := Sleeps(maxBackoff, 0, turns);
    BeforeAnyTurn(maxBackoff, turns);
    while used < |turns| && !IsSet(turns, used)
      invariant delays.Valid() && delays.maxBackoff == maxBackoff && fresh(delays) && used <= |turns|
      invariant After(all, slept, maxBackoff, Streak(delays.ends), turns, used)
      decreases |turns| - used
    {
      ghost var k := Streak(delays.ends);
      var more := AfterSession(delays, turns[used]);
      TurnIsPaid(all, slept, maxBackoff, k, turns, used, Streak(delays.ends));
      slept, used := slept + more, used + 1;
    }
    AllIsPaid(all, slept, maxBackoff, Streak(delays.ends), turns, used);
  }
}
