/** How long KinesisSink keeps trying (awsnative/sink.py): a raise means that the client raised or that every
    attempt was used. */
module KinesisRetry {
  import opened Prelude
  import opened KinesisBatching
  import opened KinesisSink
  import opened KinesisGuarantees

  /** The client's answer to the `i`-th logged request, the first of which was number `n`. */
  function AnswerTo(client: Client, n: nat, log: seq<Attempt>, i: nat): Response
    requires i < |log|
  {
    client(n + i, log[i].sent)
  }

  /** After each request but the last, exactly the records whose results carry an error code are sent again, and
      exactly those without one count as acknowledged. */
  predicate ResendsFailures(client: Client, n: nat, log: seq<Attempt>)
  {
    forall i: nat :: i + 1 < |log| ==> Resends(AnswerTo(client, n, log, i), log[i], log[i + 1])
  }

  predicate Resends(answer: Response, attempt: Attempt, next: Attempt)
  {
    && answer.Reply? && answer.failedCount != 0
    && attempt.acked == Marked(attempt.sent, answer.errors, false)
    && next.sent == Marked(attempt.sent, answer.errors, true) != []
  }

  /** The last request left nothing to send. */
  predicate Settles(answer: Response, last: Attempt)
  {
    answer.Reply? &&
    if answer.failedCount == 0 then last.acked == last.sent
    else Marked(last.sent, answer.errors, true) == [] && last.acked == Marked(last.sent, answer.errors, false)
  }

  /** The last request came back with an exception, or was the last one allowed and left records over; the
      raise names exactly what is still unsent. */
  predicate GivesUp(answer: Response, last: Attempt, named: seq<Record>, spent: bool)
  {
    if answer.Raised? then last.acked == [] && named == last.sent
    else spent && answer.failedCount != 0 && last.acked == Marked(last.sent, answer.errors, false)
         && named == Marked(last.sent, answer.errors, true) != []
  }

  /** The sink's verdict on a batch is right: a normal end means that the last request left nothing to send, and
      a raise that it raised or that all `attempts` were made and it still left records over. */
  predicate RightVerdict(client: Client, n: nat, d: Delivery, attempts: int)
  {
    d.log != [] &&
    var last := |d.log| - 1;
    var answer := AnswerTo(client, n, d.log, last);
    if d.result.Ok? then Settles(answer, d.log[last])
    else GivesUp(answer, d.log[last], d.result.error, |d.log| == attempts)
  }

  lemma ResendsCons(client: Client, n: nat, first: Attempt, later: seq<Attempt>)
    requires ResendsFailures(client, n + 1, later) && later != []
    requires Resends(client(n, first.sent), first, later[0])
    ensures ResendsFailures(client, n, [first] + later)
  {
    var log := [first] + later;
    forall i: nat | i + 1 < |log| ensures Resends(AnswerTo(client, n, log, i), log[i], log[i + 1]) {
      if i > 0 {
        assert Resends(AnswerTo(client, n + 1, later, i - 1), later[i - 1], later[i]);
      }
    }
  }

  lemma VerdictCons(client: Client, n: nat, first: Attempt, later: Delivery, attempts: int)
    requires RightVerdict(client, n + 1, later, attempts - 1)
    ensures RightVerdict(client, n, Delivery([first] + later.log, later.result), attempts)
  {
    var log := [first] + later.log;
    assert log[|log| - 1] == later.log[|later.log| - 1];
  }

  /** Every attempt is used. Against any client, for any records and any number of attempts, each request resends
      exactly the records that failed, and the verdict is right: in particular a raise is never early. */
  lemma {:induction false} EveryAttemptIsUsed(client: Client, n: nat, records: seq<Record>, pending: seq<Record>, attempts: int)
    ensures var d := Deliver(client, n, records, pending, attempts);
            if attempts <= 0 then d == Delivery([], Err(pending))
            else d.log != [] && d.log[0].sent == pending && ResendsFailures(client, n, d.log) && RightVerdict(client, n, d, attempts)
    decreases if attempts < 0 then 0 else attempts
  {
    if attempts > 1 {
      var answer := client(n, pending);
      if answer.Reply? && answer.failedCount != 0 && Marked(pending, answer.errors, true) != [] {
        var first, again := Attempt(pending, Marked(pending, answer.errors, false)), Marked(pending, answer.errors, true);
        var later := Deliver(client, n + 1, records, again, attempts - 1);
        EveryAttemptIsUsed(client, n + 1, records, again, attempts - 1);
        ResendsCons(client, n, first, later.log);
        VerdictCons(client, n, first, later, attempts);
      }
    }
  }

  // A client that is throttled for a while.

  /** Request number `n` is taken whole, whatever it carries. */
  ghost predicate Accepts(client: Client, n: nat) { forall sent :: client(n, sent).Reply? && client(n, sent).failedCount == 0 }

  /** The client never raises, and of any `k` requests in a row it takes one whole. */
  ghost predicate Recovers(client: Client, k: int)
  {
    && (forall n, sent :: client(n, sent).Reply?)
    && (forall n: nat :: AcceptsWithin(client, n, k))
  }

  ghost predicate AcceptsWithin(client: Client, n: nat, k: int) { exists m: nat :: n <= m < n + k && Accepts(client, m) }

  lemma {:induction false} DeliversBy(client: Client, n: nat, m: nat, records: seq<Record>, pending: seq<Record>, attempts: int)
    requires (forall n, sent :: client(n, sent).Reply?) && Accepts(client, m) && n <= m < n + attempts
    ensures Deliver(client, n, records, pending, attempts).result.Ok?
    decreases attempts
  {
    var answer := client(n, pending);
    if answer.failedCount != 0 {
      var again := Marked(pending, answer.errors, true);
      if again != [] {
        DeliversBy(client, n + 1, m, records, again, attempts - 1);
      }
    }
  }

  lemma {:induction false} SendAllSucceeds(p: Settings, w: World)
    requires Recovers(p.client, p.maxAttempts)
    ensures SendAllSpec(p, w).1.Ok?
    decreases |w.buffer|
  {
    if w.buffer != [] {
      assert AcceptsWithin(p.client, |w.log|, p.maxAttempts);
      var m: nat :| |w.log| <= m < |w.log| + p.maxAttempts && Accepts(p.client, m);
      DeliversBy(p.client, |w.log|, m, NextBatch(p, w), NextBatch(p, w), p.maxAttempts);
      SendAllSucceeds(p, AfterBatch(p, w));
    }
  }

  /** Throttling shorter than the attempts is ridden out: against a client that recovers within max_attempts
      requests, no history of operations ever raises. */
  lemma {:induction false} ThrottlingIsRiddenOut(p: Settings, ops: seq<Op>)
    requires Recovers(p.client, p.maxAttempts)
    ensures Clean(p, ops)
  {
    if ops != [] {
      ThrottlingIsRiddenOut(p, ops[..|ops| - 1]);
      SendAllSucceeds(p, Run(p, ops[..|ops| - 1]));
    }
  }

  // When poll sends, and what flush answers.

  /** Poll makes a request exactly when there is something to send and a threshold is reached; otherwise it changes nothing and answers 0. */
  lemma PollSendsExactlyWhen(p: Settings, w: World)
    requires p.maxAttempts >= 1 && w.bufferedBytes == Bytes(w.buffer)
    ensures |PollSpec(p, w).0.log| > |w.log|
            <==> w.buffer != [] && (|w.buffer| >= p.caps.maxBatch || Bytes(w.buffer) >= p.caps.maxBytes)
    ensures |PollSpec(p, w).0.log| <= |w.log| ==> PollSpec(p, w) == (w, Ok(0))
  {
    SendAllRequests(p, w);
  }

  lemma {:induction false} SendAllRequests(p: Settings, w: World)
    requires p.maxAttempts >= 1
    ensures |SendAllSpec(p, w).0.log| >= |w.log|
    ensures w.buffer != [] ==> |SendAllSpec(p, w).0.log| > |w.log|
    decreases |w.buffer|
  {
    if w.buffer != [] {
      EveryAttemptIsUsed(p.client, |w.log|, NextBatch(p, w), NextBatch(p, w), p.maxAttempts);
      if BatchDelivery(p, w).result.Ok? {
        SendAllRequests(p, AfterBatch(p, w));
      }
    }
  }

  /** An operation that sends everything and does not raise leaves nothing pending, which is what flush answers. */
  lemma FlushAnswersZero(p: Settings, w: World)
    requires FlushSpec(p, w).1.Ok?
    ensures FlushSpec(p, w).1 == Ok(0) && FlushSpec(p, w).0.buffer == []
  {
    SendAllEmpties(p, w);
  }

  lemma {:induction false} SendAllEmpties(p: Settings, w: World)
    requires SendAllSpec(p, w).1.Ok?
    ensures SendAllSpec(p, w).0.buffer == []
    decreases |w.buffer|
  {
    if w.buffer != [] {
      SendAllEmpties(p, AfterBatch(p, w));
    }
  }
}
