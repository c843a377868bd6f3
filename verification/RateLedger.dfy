/** The token bucket's books (ingest/core/ratelimit.py): every token it is paid is granted, left over, or lost to
    the capacity, and an acquisition is refused only for want of tokens. */
module RateLedger {
  import opened Prelude
  import opened RateLimit

  /** What is paid beyond the capacity when the bucket is looked at. */
  function Overflow(b: Bucket, now: real): real
  {
    Max(0.0, b.tokens + Earned(now - b.updated, b.rate) - b.capacity)
  }

  /** Tokens a history lost to the capacity. */
  function Spilled(b: Bucket, calls: seq<Call>): real
  {
    if calls == [] then 0.0 else
      var n := |calls| - 1;
      Spilled(b, calls[..n]) + Overflow(After(b, calls[..n]), calls[n].at)
  }

  /** The instant of the last call. */
  function End(b: Bucket, calls: seq<Call>): real { if calls == [] then b.updated else calls[|calls| - 1].at }

  lemma OneBalances(b: Bucket, call: Call)
    requires b.Valid()
    ensures Grant(b, call) + One(b, call).0.tokens + Overflow(b, call.at) == b.tokens + Earned(call.at - b.updated, b.rate)
  {
  }

  /** Conservation. Over every history, the tokens granted, those left and those lost to the capacity are the
      tokens there were and those the clock paid. */
  lemma {:induction false} TokensBalance(b: Bucket, calls: seq<Call>)
    requires b.Valid() && Timed(b.updated, calls)
    ensures Granted(b, calls) + After(b, calls).tokens + Spilled(b, calls)
            == b.tokens + Earned(End(b, calls) - b.updated, b.rate)
  {
    if calls != [] {
      var n := |calls| - 1;
      var earlier, last := calls[..n], calls[n];
      TimedPrefix(b.updated, calls);
      TokensBalance(b, earlier);
      BalanceStaysInRange(b, earlier);
      OneBalances(After(b, earlier), last);
      EarnedAdds(End(b, earlier) - b.updated, last.at - End(b, earlier), b.rate);
    }
  }

  /** No call of the history finds the bucket paid beyond its capacity. */
  predicate NeverOverfull(b: Bucket, calls: seq<Call>)
  {
    forall n :: 0 <= n < |calls| ==> Overflow(After(b, calls[..n]), calls[n].at) == 0.0
  }

  lemma {:induction false} SpillsExactlyWhen(b: Bucket, calls: seq<Call>)
    ensures Spilled(b, calls) >= 0.0
    ensures Spilled(b, calls) == 0.0 <==> NeverOverfull(b, calls)
  {
    if calls != [] {
      var m := |calls| - 1;
      SpillsExactlyWhen(b, calls[..m]);
      NeverOverfullSnoc(b, calls, m);
    }
  }

  lemma NeverOverfullSnoc(b: Bucket, calls: seq<Call>, m: nat)
    requires m + 1 == |calls|
    ensures NeverOverfull(b, calls) <==> NeverOverfull(b, calls[..m]) && Overflow(After(b, calls[..m]), calls[m].at) == 0.0
  {
    assert forall n :: 0 <= n < m ==> calls[..m][..n] == calls[..n] && calls[..m][n] == calls[n];
  }

  /** Nothing is lost on the way: what was granted and what is left make up everything the bucket was paid exactly
      when no call found it paid beyond its capacity. */
  lemma NothingIsLostExactlyWhen(b: Bucket, calls: seq<Call>)
    requires b.Valid() && Timed(b.updated, calls)
    ensures Granted(b, calls) + After(b, calls).tokens == b.tokens + Earned(End(b, calls) - b.updated, b.rate)
            <==> NeverOverfull(b, calls)
  {
    TokensBalance(b, calls);
    SpillsExactlyWhen(b, calls);
  }

  /** What a history leaves for a call at `now`: what the bucket was paid, less what was granted and lost, as far
      as the capacity goes. */
  function Available(b: Bucket, calls: seq<Call>, now: real): real
  {
    Min(b.capacity, b.tokens + Earned(now - b.updated, b.rate) - Granted(b, calls) - Spilled(b, calls))
  }

  /** An acquisition is granted exactly when the amount is available, and then costs exactly the amount; a refused
      one costs nothing. */
  lemma GrantedExactlyWhen(b: Bucket, calls: seq<Call>, now: real, amount: real)
    requires b.Valid() && Timed(b.updated, calls) && End(b, calls) <= now
    ensures var (after, granted) := TryAcquire(After(b, calls), now, amount);
            && (granted <==> amount <= Available(b, calls, now))
            && after.tokens == Available(b, calls, now) - if granted then amount else 0.0
  {
    TokensBalance(b, calls);
    BalanceStaysInRange(b, calls);
    EarnedAdds(End(b, calls) - b.updated, now - End(b, calls), b.rate);
  }

  // Acquisitions at one instant.

  function Total(amounts: seq<real>): real
  {
    if amounts == [] then 0.0 else Total(amounts[..|amounts| - 1]) + amounts[|amounts| - 1]
  }

  function TakesAt(at: real, amounts: seq<real>): seq<Call>
  {
    seq(|amounts|, i requires 0 <= i < |amounts| => Take(at, amounts[i]))
  }

  predicate NonNegative(amounts: seq<real>) { forall i :: 0 <= i < |amounts| ==> amounts[i] >= 0.0 }

  function AllGranted(n: nat): seq<bool> { if n == 0 then [] else AllGranted(n - 1) + [true] }

  /** A burst is granted whole when the balance covers it: acquisitions at one instant that add up to no more than
      the balance are all granted, and together cost their sum. */
  lemma {:induction false} BurstIsGranted(b: Bucket, at: real, amounts: seq<real>)
    requires b.Valid() && b.updated <= at && NonNegative(amounts)
    requires Total(amounts) <= Min(b.capacity, b.tokens + Earned(at - b.updated, b.rate))
    ensures Decisions(b, TakesAt(at, amounts)) == AllGranted(|amounts|)
    ensures Granted(b, TakesAt(at, amounts)) == Total(amounts)
    ensures Refill(After(b, TakesAt(at, amounts)), at).tokens
            == Min(b.capacity, b.tokens + Earned(at - b.updated, b.rate)) - Total(amounts)
  {
    if amounts != [] {
      var n := |amounts| - 1;
      var calls := TakesAt(at, amounts);
      assert calls[..n] == TakesAt(at, amounts[..n]);
      BurstIsGranted(b, at, amounts[..n]);
      TotalIsNonNegative(amounts[..n]);
      BalanceStaysInRange(b, calls);
      RefillAgain(After(b, calls));
    }
  }

  lemma {:induction false} TotalIsNonNegative(amounts: seq<real>)
    requires NonNegative(amounts)
    ensures Total(amounts) >= 0.0
  {
    if amounts != [] {
      TotalIsNonNegative(amounts[..|amounts| - 1]);
    }
  }
}
