/** The token bucket that keeps REST repair under a venue's limit (ingest/core/ratelimit.py), over exact reals. */
module RateLimit {
  import opened Prelude

  datatype Bucket = Bucket(rate: real, capacity: real, tokens: real, updated: real) {
    predicate Valid() { rate >= 0.0 && 0.0 <= tokens <= capacity }
  }

  /** Tokens the clock pays out. */
  function Earned(elapsed: real, rate: real): real { elapsed * rate }

  function Refill(b: Bucket, now: real): Bucket
  {
    b.(tokens := Min(b.capacity, b.tokens + Earned(now - b.updated, b.rate)), updated := now)
  }

  function TryAcquire(b: Bucket, now: real, tokens: real): (Bucket, bool)
  {
    var full := Refill(b, now);
    if full.tokens >= tokens then (full.(tokens := full.tokens - tokens), true) else (full, false)
  }

  /** A monotonic clock: every reading is at or after the last, and sleeping takes at least the time asked. */
  class Clock {
    var now: real
    ghost var slept: nat      // sleeps so far
    ghost var asked: real     // seconds they were asked to take

    constructor (start: real)
      ensures now == start && slept == 0 && asked == 0.0
    {
      now, slept, asked := start, 0, 0.0;
    }

    method Read() returns (t: real)
      modifies this`now
      ensures t == now >= old(now)
    {
      var passed: real :| passed >= 0.0;
      now := now + passed;
      t := now;
    }

    method Sleep(seconds: real)
      modifies this
      ensures now >= old(now) + seconds && slept == old(slept) + 1 && asked == old(asked) + seconds
    {
      var late: real :| late >= 0.0;
      now, slept, asked := now + seconds + late, slept + 1, asked + seconds;
    }
  }

  class TokenBucket {
    const rate: real
    const capacity: real
    const clock: Clock
    var tokens: real
    var updated: real

    ghost function View(): Bucket
      reads this
    {
      Bucket(rate, capacity, tokens, updated)
    }

    ghost predicate Valid()
      reads this, clock
    {
      View().Valid() && updated <= clock.now
    }

    constructor (rate: real, capacity: real, clock: Clock)
      requires rate >= 0.0 && capacity >= 0.0
      modifies clock`now
      ensures Valid() && View() == Bucket(rate, capacity, capacity, clock.now) && this.clock == clock
    {
      this.rate, this.capacity, this.clock := rate, capacity, clock;
      var start := clock.Read();
      tokens, updated := capacity, start;
    }

    method DoRefill()
      requires Valid()
      modifies this, clock`now
      ensures Valid() && clock.now >= old(clock.now)
      ensures View() == Refill(old(View()), clock.now) && tokens >= old(tokens)
    {
      var current := clock.Read();
      var elapsed := current - updated;
      EarnedIsPositive(elapsed, rate);
      updated := current;
      tokens := Min(capacity, tokens + Earned(elapsed, rate));
    }

    method DoTryAcquire(amount: real) returns (granted: bool)
      requires Valid() && amount >= 0.0
      modifies this, clock`now
      ensures Valid() && clock.now >= old(clock.now)
      ensures (View(), granted) == TryAcquire(old(View()), clock.now, amount)
      ensures old(tokens) >= amount ==> granted
      ensures !granted ==> tokens >= old(tokens)
    {
      DoRefill();
      if tokens >= amount {
        tokens := tokens - amount;
        return true;
      }
      granted := false;
    }

    /** Waiting for tokens. A sole caller that asks for no more than the capacity is served after at most one
        sleep, and the amount is taken from the balance exactly once. It does not sleep when the balance
        suffices, and otherwise asks for no more than the time in which the rate pays what was missing, or a
        millisecond. */
    method Acquire(amount: real) returns (ghost before: Bucket)
      requires Valid() && rate > 0.0 && 0.0 <= amount <= capacity
      modifies this, clock
      ensures Valid() && clock.slept <= old(clock.slept) + 1
      ensures clock.slept == old(clock.slept) ==> before == old(View()) && clock.asked == old(clock.asked)
      ensures old(tokens) >= amount ==> clock.slept == old(clock.slept)
      ensures clock.asked <= old(clock.asked) + Max((amount - old(tokens)) / rate, 0.001)
      ensures before.updated <= clock.now == updated && tokens == Refill(before, clock.now).tokens - amount
    {
      before := View();
      var granted := DoTryAcquire(amount);
      while !granted
        invariant Valid() && clock.slept <= old(clock.slept) + 1
        invariant !granted ==> clock.slept == old(clock.slept) && clock.asked == old(clock.asked)
        invariant !granted ==> old(tokens) <= tokens < amount
        invariant clock.slept == old(clock.slept) && granted ==> before == old(View()) && clock.asked == old(clock.asked)
        invariant old(tokens) >= amount ==> clock.slept == old(clock.slept)
        invariant clock.asked <= old(clock.asked) + Max((amount - old(tokens)) / rate, 0.001)
        invariant granted ==> before.updated <= clock.now == updated && tokens == Refill(before, clock.now).tokens - amount
        decreases !granted
      {
        ShorterDeficit(amount - tokens, amount - old(tokens), rate);
        AwaitDeficit(amount);
        before := View();
        granted := DoTryAcquire(amount);
      }
    }

    /** The body of acquire's loop: sleep for as long as the clock needs to pay what is missing. */
    method AwaitDeficit(amount: real)
      requires Valid() && rate > 0.0 && tokens < amount <= capacity
      modifies this, clock
      ensures Valid() && clock.slept == old(clock.slept) + 1 && tokens >= old(tokens)
      ensures forall later :: later >= clock.now ==> Refill(View(), later).tokens >= amount
      ensures clock.asked <= old(clock.asked) + Max((amount - old(tokens)) / rate, 0.001)
    {
      DoRefill();
      var deficit := amount - tokens;
      ShorterDeficit(deficit, amount - old(tokens), rate);
      clock.Sleep(Max(deficit / rate, 0.001));
      forall later | later >= clock.now ensures Refill(View(), later).tokens >= amount {
        SleepPaysDeficit(deficit, rate, later - updated);
      }
    }
  }

  lemma ShorterDeficit(a: real, b: real, rate: real)
    requires a <= b && rate > 0.0
    ensures a / rate <= b / rate
  {
    var x, y := a / rate, b / rate;
    assert x * rate == a && y * rate == b;
    if x > y {
      ScaledMore(x - y, rate);
    }
  }

  lemma ScaledMore(x: real, rate: real)
    requires x > 0.0 && rate > 0.0
    ensures x * rate > 0.0
  {
  }

  lemma EarnedIsPositive(elapsed: real, rate: real)
    requires elapsed >= 0.0 && rate >= 0.0
    ensures Earned(elapsed, rate) >= 0.0
  {
  }

  /** One second pays the rate, and `EarnedAdds` says the payment is additive in time. */
  lemma OneSecondEarnsTheRate(rate: real)
    ensures Earned(1.0, rate) == rate && Earned(0.0, rate) == 0.0
  {
  }

  lemma EarnedAdds(a: real, b: real, rate: real)
    ensures Earned(a, rate) + Earned(b, rate) == Earned(a + b, rate)
  {
  }

  lemma EarnedGrows(a: real, b: real, rate: real)
    requires rate >= 0.0 && a <= b
    ensures Earned(a, rate) <= Earned(b, rate)
  {
    EarnedAdds(a, b - a, rate);
    EarnedIsPositive(b - a, rate);
  }

  lemma SleepPaysDeficit(deficit: real, rate: real, elapsed: real)
    requires rate > 0.0 && elapsed >= deficit / rate
    ensures Earned(elapsed, rate) >= deficit
  {
    EarnedGrows(deficit / rate, elapsed, rate);
  }

  lemma RefillKeepsValid(b: Bucket, now: real)
    requires b.Valid() && b.updated <= now
    ensures Refill(b, now).Valid() && Refill(b, now).tokens >= b.tokens
  {
    EarnedIsPositive(now - b.updated, b.rate);
  }

  // Whole histories of calls.

  datatype Call = Look(at: real) | Take(at: real, amount: real)

  function One(b: Bucket, call: Call): (Bucket, bool)
  {
    match call
    case Look(at) => (Refill(b, at), false)
    case Take(at, amount) => TryAcquire(b, at, amount)
  }

  function After(b: Bucket, calls: seq<Call>): Bucket
  {
    if calls == [] then b else One(After(b, calls[..|calls| - 1]), calls[|calls| - 1]).0
  }

  /** Tokens handed out by a history. */
  function Granted(b: Bucket, calls: seq<Call>): real
  {
    if calls == [] then 0.0 else
      var before, last := After(b, calls[..|calls| - 1]), calls[|calls| - 1];
      Granted(b, calls[..|calls| - 1]) + Grant(before, last)
  }

  /** The answers given to the history's acquisitions. */
  function Decisions(b: Bucket, calls: seq<Call>): seq<bool>
  {
    if calls == [] then [] else
      var before, last := After(b, calls[..|calls| - 1]), calls[|calls| - 1];
      if last.Take? then Decisions(b, calls[..|calls| - 1]) + [One(before, last).1]
      else Decisions(b, calls[..|calls| - 1])
  }

  /** Calls made one after another, none before `from`, none asking for a negative amount. */
  predicate Timed(from: real, calls: seq<Call>)
  {
    && (forall i :: 0 <= i < |calls| ==> from <= calls[i].at && (calls[i].Take? ==> calls[i].amount >= 0.0))
    && (forall i, j :: 0 <= i < j < |calls| ==> calls[i].at <= calls[j].at)
  }

  lemma OneKeepsValid(b: Bucket, call: Call)
    requires b.Valid() && b.updated <= call.at && (call.Take? ==> call.amount >= 0.0)
    ensures One(b, call).0.Valid() && One(b, call).0.updated == call.at
    ensures One(b, call).0.rate == b.rate && One(b, call).0.capacity == b.capacity
  {
    RefillKeepsValid(b, call.at);
  }

  lemma TimedPrefix(from: real, calls: seq<Call>)
    requires Timed(from, calls) && calls != []
    ensures Timed(from, calls[..|calls| - 1])
    ensures |calls| > 1 ==> calls[|calls| - 2].at <= calls[|calls| - 1].at
  {
  }

  /** The balance never leaves [0, capacity], whatever the history. */
  lemma {:induction false} BalanceStaysInRange(b: Bucket, calls: seq<Call>)
    requires b.Valid() && Timed(b.updated, calls)
    ensures After(b, calls).Valid()
    ensures After(b, calls).rate == b.rate && After(b, calls).capacity == b.capacity
    ensures After(b, calls).updated == if calls == [] then b.updated else calls[|calls| - 1].at
  {
    if calls != [] {
      TimedPrefix(b.updated, calls);
      BalanceStaysInRange(b, calls[..|calls| - 1]);
      OneKeepsValid(After(b, calls[..|calls| - 1]), calls[|calls| - 1]);
    }
  }

  /** What one call hands out. */
  function Grant(b: Bucket, call: Call): real { if call.Take? && One(b, call).1 then call.amount else 0.0 }

  /** One call pays for its grant from the balance and the time since the last call. */
  lemma OneIsPaidFor(b: Bucket, call: Call)
    ensures Grant(b, call) + One(b, call).0.tokens <= b.tokens + Earned(call.at - b.updated, b.rate)
    ensures Grant(b, call) + One(b, call).0.tokens <= b.capacity
  {
  }

  /** Tokens granted plus tokens left never exceed the capacity plus what the clock has paid since the first call. */
  lemma {:induction false} GrantsArePaidFor(b: Bucket, calls: seq<Call>)
    requires b.Valid() && Timed(b.updated, calls) && calls != []
    ensures Granted(b, calls) + After(b, calls).tokens <= b.capacity + Earned(calls[|calls| - 1].at - calls[0].at, b.rate)
  {
    var n := |calls| - 1;
    TimedPrefix(b.updated, calls);
    BalanceStaysInRange(b, calls[..n]);
    OneIsPaidFor(After(b, calls[..n]), calls[n]);
    if n == 0 {
      EarnedIsPositive(0.0, b.rate);
    } else {
      GrantsArePaidFor(b, calls[..n]);
      EarnedAdds(calls[n - 1].at - calls[0].at, calls[n].at - calls[n - 1].at, b.rate);
    }
  }

  lemma {:induction false} AfterAppend(b: Bucket, earlier: seq<Call>, calls: seq<Call>)
    ensures After(b, earlier + calls) == After(After(b, earlier), calls)
    ensures Granted(b, earlier + calls) == Granted(b, earlier) + Granted(After(b, earlier), calls)
  {
    if calls == [] {
      assert earlier + calls == earlier;
    } else {
      var n := |calls| - 1;
      AfterAppend(b, earlier, calls[..n]);
      assert (earlier + calls)[..|earlier| + n] == earlier + calls[..n];
    }
  }

  predicate Within(calls: seq<Call>, from: real, to: real) { forall i :: 0 <= i < |calls| ==> from <= calls[i].at <= to }

  lemma WindowIsBounded(b: Bucket, calls: seq<Call>, from: real, to: real)
    requires b.Valid() && Timed(b.updated, calls) && from <= to && Within(calls, from, to)
    ensures Granted(b, calls) <= b.capacity + Earned(to - from, b.rate)
  {
    EarnedIsPositive(to - from, b.rate);
    if calls != [] {
      GrantsArePaidFor(b, calls);
      BalanceStaysInRange(b, calls);
      EarnedGrows(calls[|calls| - 1].at - calls[0].at, to - from, b.rate);
    }
  }

  /** Rate bound over any window. Whatever calls came before, those made between two instants are granted at
      most the capacity plus the rate times the time between them. */
  lemma {:induction false} GrantedIsBounded(b: Bucket, earlier: seq<Call>, calls: seq<Call>, from: real, to: real)
    requires b.Valid() && Timed(b.updated, earlier) && Timed(After(b, earlier).updated, calls)
    requires from <= to && Within(calls, from, to)
    ensures Granted(b, earlier + calls) - Granted(b, earlier) <= b.capacity + Earned(to - from, b.rate)
  {
    AfterAppend(b, earlier, calls);
    BalanceStaysInRange(b, earlier);
    WindowIsBounded(After(b, earlier), calls, from, to);
  }

  /** Refilling twice is refilling once, at the later time. */
  lemma RefillsCompose(b: Bucket, t: real, u: real)
    requires b.Valid() && b.updated <= t <= u
    ensures Refill(Refill(b, t), u) == Refill(b, u)
  {
    EarnedIsPositive(t - b.updated, b.rate);
    EarnedIsPositive(u - t, b.rate);
    EarnedAdds(t - b.updated, u - t, b.rate);
  }

  function Takes(calls: seq<Call>): seq<Call>
  {
    if calls == [] then [] else
      var n := |calls| - 1;
      if calls[n].Take? then Takes(calls[..n]) + [calls[n]] else Takes(calls[..n])
  }

  lemma {:induction false} TakesAreTimed(from: real, calls: seq<Call>)
    requires Timed(from, calls)
    ensures Timed(from, Takes(calls))
    ensures Takes(calls) != [] ==> Takes(calls)[|Takes(calls)| - 1].at <= calls[|calls| - 1].at
    ensures calls == [] ==> Takes(calls) == []
  {
    if calls != [] {
      var n := |calls| - 1;
      TakesAreTimed(from, calls[..n]);
      var earlier := Takes(calls[..n]);
      if earlier != [] {
        assert calls[..n][n - 1].at <= calls[n].at;
      }
    }
  }

  /** Seen by the next call, a history has the balance its acquisitions alone would have. */
  lemma SameBalanceNext(b: Bucket, calls: seq<Call>, now: real)
    requires b.Valid() && Timed(b.updated, calls)
    requires calls != [] ==> After(b, calls) == Refill(After(b, Takes(calls)), calls[|calls| - 1].at) && calls[|calls| - 1].at <= now
    ensures Refill(After(b, calls), now) == Refill(After(b, Takes(calls)), now)
  {
    if calls != [] {
      TakesAreTimed(b.updated, calls);
      BalanceStaysInRange(b, Takes(calls));
      RefillsCompose(After(b, Takes(calls)), calls[|calls| - 1].at, now);
    }
  }

  /** Extra refills never change a decision: a history and its acquisitions alone get the same answers. */
  lemma {:induction false} RefillsChangeNoDecision(b: Bucket, calls: seq<Call>)
    requires b.Valid() && Timed(b.updated, calls)
    ensures Decisions(b, calls) == Decisions(b, Takes(calls))
    ensures calls != [] ==> After(b, calls) == Refill(After(b, Takes(calls)), calls[|calls| - 1].at)
  {
    if calls != [] {
      var n := |calls| - 1;
      var earlier, last := calls[..n], calls[n];
      TimedPrefix(b.updated, calls);
      RefillsChangeNoDecision(b, earlier);
      SameBalanceNext(b, earlier, last.at);
      if last.Take? {
        LastTake(b, Takes(earlier), last);
        BalanceStaysInRange(b, calls);
        RefillAgain(After(b, calls));
      }
    }
  }

  lemma LastTake(b: Bucket, takes: seq<Call>, last: Call)
    requires last.Take?
    ensures After(b, takes + [last]) == TryAcquire(After(b, takes), last.at, last.amount).0
    ensures Decisions(b, takes + [last]) == Decisions(b, takes) + [TryAcquire(After(b, takes), last.at, last.amount).1]
  {
    assert (takes + [last])[..|takes|] == takes;
  }

  lemma RefillAgain(b: Bucket)
    ensures b.tokens <= b.capacity ==> Refill(b, b.updated) == b
  {
  }

  /** Asking for more than the capacity is never granted, so waiting for it never ends. */
  lemma {:induction false} BeyondCapacityNeverGranted(b: Bucket, calls: seq<Call>, now: real, amount: real)
    requires b.Valid() && Timed(b.updated, calls)
    ensures amount > b.capacity ==> !TryAcquire(After(b, calls), now, amount).1
  {
    BalanceStaysInRange(b, calls);
  }
}
