/** What KinesisSink guarantees against every client whose answers are positional and counted. */
module KinesisGuarantees {
  import opened Prelude
  import opened KinesisBatching
  import opened KinesisSink

  /** put_records promises one result per record and a count of the results that carry an error code. */
  predicate WellFormed(sent: seq<Record>, answer: Response)
  {
    answer.Reply? ==> |answer.errors| == |sent| && answer.failedCount == |Marked(sent, answer.errors, true)|
  }

  ghost predicate Positional(client: Client) { forall n, sent :: WellFormed(sent, client(n, sent)) }

  predicate Subsequence<T(==)>(a: seq<T>, b: seq<T>)
  {
    a == [] || (b != [] && (Subsequence(a, b[1..]) || (a[0] == b[0] && Subsequence(a[1..], b[1..]))))
  }

  lemma {:induction false} MarkedSplits(records: seq<Record>, errors: seq<bool>)
    requires |errors| == |records|
    ensures multiset(Marked(records, errors, true)) + multiset(Marked(records, errors, false)) == multiset(records)
  {
    if records != [] {
      MarkedSplits(records[1..], errors[1..]);
      assert records == [records[0]] + records[1..];
    }
  }

  /** Why the answer has to be positional: what is retried and what is taken as delivered cover the request
      exactly when the answer has a result for every record. A shorter answer drops the rest unnoticed. */
  lemma {:induction false} RetryCoversExactlyWhen(records: seq<Record>, errors: seq<bool>)
    ensures multiset(Marked(records, errors, true)) + multiset(Marked(records, errors, false)) == multiset(records)
            <==> |errors| >= |records|
  {
    var n := if |errors| < |records| then |errors| else |records|;
    MarkedIgnoresExcess(records, errors, n, true);
    MarkedIgnoresExcess(records, errors, n, false);
    MarkedSplits(records[..n], errors[..n]);
    SplitBuffer(records, n);
    assert |errors| >= |records| ==> records[..n] == records;
    assert |multiset(records[..n])| == n && |multiset(records)| == |records|;
  }

  lemma {:induction false} MarkedIgnoresExcess(records: seq<Record>, errors: seq<bool>, n: nat, wanted: bool)
    requires n <= |records| && n <= |errors| && (n == |records| || n == |errors|)
    ensures Marked(records, errors, wanted) == Marked(records[..n], errors[..n], wanted)
  {
    if n > 0 {
      MarkedIgnoresExcess(records[1..], errors[1..], n - 1, wanted);
      assert records[..n][1..] == records[1..][..n - 1] && errors[..n][1..] == errors[1..][..n - 1];
    }
  }

  lemma {:induction false} MarkedIsSubsequence(records: seq<Record>, errors: seq<bool>, wanted: bool)
    ensures Subsequence(Marked(records, errors, wanted), records)
  {
    if records != [] && errors != [] {
      MarkedIsSubsequence(records[1..], errors[1..], wanted);
      var rest := Marked(records[1..], errors[1..], wanted);
      if errors[0] == wanted {
        assert ([records[0]] + rest)[1..] == rest;
      }
    }
  }

  function AckedIn(log: seq<Attempt>): seq<Record>
  {
    if log == [] then [] else log[0].acked + AckedIn(log[1..])
  }

  lemma {:induction false} AckedAppend(a: seq<Attempt>, b: seq<Attempt>)
    ensures AckedIn(a + b) == AckedIn(a) + AckedIn(b)
  {
    if a == [] {
      assert a + b == b;
    } else {
      var head, tail := a[0].acked, a[1..];
      calc {
        AckedIn(a + b);
        { assert (a + b)[0] == a[0] && (a + b)[1..] == tail + b; }
        head + AckedIn(tail + b);
        { AckedAppend(tail, b); }
        head + (AckedIn(tail) + AckedIn(b));
        (head + AckedIn(tail)) + AckedIn(b);
        AckedIn(a) + AckedIn(b);
      }
    }
  }

  /** Each request is a subsequence of the one before it. */
  predicate Narrowing(log: seq<Attempt>)
  {
    forall i :: 0 < i < |log| ==> Subsequence(log[i].sent, log[i - 1].sent)
  }

  /** Retrying one batch: there are at most `attempts` requests, and each only resends records of the
      previous one. */
  lemma {:induction false} DeliverNarrows(client: Client, n: nat, records: seq<Record>, pending: seq<Record>, attempts: int)
    ensures var d := Deliver(client, n, records, pending, attempts);
            && Narrowing(d.log)
            && (d.log != [] ==> d.log[0].sent == pending)
            && |d.log| <= (if attempts < 0 then 0 else attempts)
    decreases if attempts < 0 then 0 else attempts
  {
    if attempts > 0 {
      var answer := client(n, pending);
      if answer.Reply? && answer.failedCount != 0 {
        var again := Marked(pending, answer.errors, true);
        MarkedIsSubsequence(pending, answer.errors, true);
        DeliverNarrows(client, n + 1, records, again, attempts - 1);
        var later := Deliver(client, n + 1, records, again, attempts - 1).log;
        var log := Deliver(client, n, records, pending, attempts).log;
        if again != [] {
          forall i | 0 < i < |log| ensures Subsequence(log[i].sent, log[i - 1].sent) {
            assert log[i] == later[i - 1] && (i > 1 ==> log[i - 1] == later[i - 2]);
          }
        }
      }
    }
  }

  function Named(verdict: Verdict): seq<Record> { if verdict.Err? then verdict.error else [] }

  lemma FirstThenLater(first: Attempt, later: seq<Attempt>, pending: seq<Record>, again: seq<Record>, named: seq<Record>)
    requires multiset(again) + multiset(first.acked) == multiset(pending)
    requires multiset(again) == multiset(AckedIn(later)) + multiset(named)
    ensures multiset(pending) == multiset(AckedIn([first] + later)) + multiset(named)
  {
    assert ([first] + later)[1..] == later;
  }

  predicate Conserves(pending: seq<Record>, d: Delivery)
  {
    multiset(pending) == multiset(AckedIn(d.log)) + multiset(Named(d.result))
  }

  lemma AckedOne(a: Attempt)
    ensures AckedIn([a]) == a.acked
  {
    assert AckedIn([a][1..]) == [] && a.acked + [] == a.acked;
  }

  lemma {:induction false} RetryConserves(pending: seq<Record>, errors: seq<bool>, later: Delivery)
    requires |errors| == |pending| && Conserves(Marked(pending, errors, true), later)
    ensures Conserves(pending, Delivery([Attempt(pending, Marked(pending, errors, false))] + later.log, later.result))
  {
    MarkedSplits(pending, errors);
    FirstThenLater(Attempt(pending, Marked(pending, errors, false)), later.log, pending, Marked(pending, errors, true), Named(later.result));
  }

  /** What the answers acknowledged plus what a raise names is exactly the batch. */
  lemma {:induction false} DeliverConserves(client: Client, n: nat, records: seq<Record>, pending: seq<Record>, attempts: int)
    requires Positional(client)
    ensures Conserves(pending, Deliver(client, n, records, pending, attempts))
    decreases if attempts < 0 then 0 else attempts
  {
    if attempts > 0 {
      var answer := client(n, pending);
      assert WellFormed(pending, answer);
      if answer.Raised? {
        AckedOne(Attempt(pending, []));
      } else if answer.failedCount == 0 {
        AckedOne(Attempt(pending, pending));
      } else {
        var again := Marked(pending, answer.errors, true);
        DeliverConserves(client, n + 1, records, again, attempts - 1);
        RetryConserves(pending, answer.errors, Deliver(client, n + 1, records, again, attempts - 1));
      }
    }
  }

  /** A batch's count is the size of its last request, so it is the number delivered only when the last
      request resent the whole batch. */
  lemma {:induction false} CountIsLastRequest(client: Client, n: nat, records: seq<Record>, pending: seq<Record>, attempts: int)
    requires Positional(client)
    ensures var d := Deliver(client, n, records, pending, attempts);
            d.result.Ok? ==> d.log != [] && d.result.value == |d.log[|d.log| - 1].sent|
    decreases if attempts < 0 then 0 else attempts
  {
    if attempts > 0 {
      var answer := client(n, pending);
      assert WellFormed(pending, answer);
      if answer.Reply? && answer.failedCount != 0 {
        CountIsLastRequest(client, n + 1, records, Marked(pending, answer.errors, true), attempts - 1);
      }
    }
  }

  /** The requests made for one batch: the first carries the whole batch, each later one part of the last. */
  predicate IsGroup(group: seq<Attempt>, batch: seq<Record>)
  {
    Narrowing(group) && (group != [] ==> group[0].sent == batch)
  }

  /** One group per batch, in order, each acknowledging exactly its batch. */
  predicate AllAcked(groups: seq<seq<Attempt>>, batches: seq<seq<Record>>)
  {
    if groups == [] || batches == [] then groups == [] && batches == []
    else IsGroup(groups[0], batches[0]) && multiset(AckedIn(groups[0])) == multiset(batches[0])
         && AllAcked(groups[1..], batches[1..])
  }

  /** A normal end of `_send_all`: every batch has its group, fully acknowledged before the next begins. */
  ghost predicate EndsInOrder(p: Settings, w: World, done: seq<seq<Attempt>>)
  {
    var (after, verdict) := SendAllSpec(p, w);
    && after.log == w.log + Flatten(done) && AllAcked(done, Batches(p.caps, w.buffer))
    && after.buffer == [] && after.stranded == w.stranded
  }

  /** A raise at the batch after `done`: earlier batches are fully acknowledged, that batch is made up of its
      acknowledgements and the named records, and later batches are untouched. */
  predicate RaisedAt(batches: seq<seq<Record>>, done: seq<seq<Attempt>>, failing: seq<Attempt>,
                     named: seq<Record>, buffer: seq<Record>)
  {
    && |done| < |batches| && AllAcked(done, batches[..|done|])
    && IsGroup(failing, batches[|done|])
    && multiset(batches[|done|]) == multiset(AckedIn(failing)) + multiset(named)
    && buffer == Flatten(batches[|done| + 1..])
  }

  lemma RaisedAtCons(batch: seq<Record>, batches: seq<seq<Record>>, group: seq<Attempt>, done: seq<seq<Attempt>>,
                     failing: seq<Attempt>, named: seq<Record>, buffer: seq<Record>)
    requires RaisedAt(batches, done, failing, named, buffer)
    requires IsGroup(group, batch) && multiset(AckedIn(group)) == multiset(batch)
    ensures RaisedAt([batch] + batches, [group] + done, failing, named, buffer)
  {
    var n := |done|;
    AllAckedCons(group, done, batch, batches[..n]);
    assert ([batch] + batches)[..n + 1] == [batch] + batches[..n];
    assert ([batch] + batches)[n + 2..] == batches[n + 1..];
  }

  ghost predicate RaisesInOrder(p: Settings, w: World, done: seq<seq<Attempt>>, failing: seq<Attempt>)
  {
    var (after, verdict) := SendAllSpec(p, w);
    && verdict.Err? && after.log == w.log + Flatten(done) + failing && after.stranded == w.stranded + verdict.error
    && RaisedAt(Batches(p.caps, w.buffer), done, failing, verdict.error, after.buffer)
  }

  lemma BatchesHead(p: Settings, w: World)
    requires w.buffer != []
    ensures Batches(p.caps, w.buffer) == [NextBatch(p, w)] + Batches(p.caps, AfterBatch(p, w).buffer)
    ensures Flatten(Batches(p.caps, AfterBatch(p, w).buffer)) == AfterBatch(p, w).buffer
  {
    BatchesAreACut(p.caps, AfterBatch(p, w).buffer);
  }

  lemma BatchDeliveryFacts(p: Settings, w: World)
    requires Positional(p.client) && w.buffer != []
    ensures var d := BatchDelivery(p, w);
            && IsGroup(d.log, NextBatch(p, w))
            && multiset(NextBatch(p, w)) == multiset(AckedIn(d.log)) + multiset(Named(d.result))
  {
    DeliverNarrows(p.client, |w.log|, NextBatch(p, w), NextBatch(p, w), p.maxAttempts);
    DeliverConserves(p.client, |w.log|, NextBatch(p, w), NextBatch(p, w), p.maxAttempts);
  }

  lemma FlattenCons<T>(base: seq<T>, first: seq<T>, rest: seq<seq<T>>)
    ensures base + Flatten([first] + rest) == base + first + Flatten(rest)
  {
    assert ([first] + rest)[1..] == rest;
  }

  lemma AllAckedCons(group: seq<Attempt>, done: seq<seq<Attempt>>, batch: seq<Record>, batches: seq<seq<Record>>)
    requires IsGroup(group, batch) && multiset(AckedIn(group)) == multiset(batch) && AllAcked(done, batches)
    ensures AllAcked([group] + done, [batch] + batches)
  {
    assert ([group] + done)[1..] == done && ([batch] + batches)[1..] == batches;
  }

  /** Sending everything is strictly in order: batch k is fully acknowledged before batch k + 1 is sent. */
  lemma {:induction false} SendAllInOrder(p: Settings, w: World) returns (done: seq<seq<Attempt>>, failing: seq<Attempt>)
    requires Positional(p.client)
    ensures SendAllSpec(p, w).1.Ok? ==> EndsInOrder(p, w, done)
    ensures SendAllSpec(p, w).1.Err? ==> RaisesInOrder(p, w, done, failing)
    decreases |w.buffer|
  {
    done, failing := [], [];
    if w.buffer != [] {
      if BatchDelivery(p, w).result.Err? {
        failing := BatchDelivery(p, w).log;
        RaisesAtOnce(p, w);
      } else {
        done, failing := SendAllInOrder(p, AfterBatch(p, w));
        if SendAllSpec(p, w).1.Ok? {
          EndsCons(p, w, done);
        } else {
          RaisesCons(p, w, done, failing);
        }
        done := [BatchDelivery(p, w).log] + done;
      }
    }
  }

  lemma EndsCons(p: Settings, w: World, done: seq<seq<Attempt>>)
    requires Positional(p.client) && w.buffer != [] && BatchDelivery(p, w).result.Ok?
    requires SendAllSpec(p, AfterBatch(p, w)).1.Ok? && EndsInOrder(p, AfterBatch(p, w), done)
    ensures EndsInOrder(p, w, [BatchDelivery(p, w).log] + done)
  {
    BatchesHead(p, w);
    BatchDeliveryFacts(p, w);
    FlattenCons(w.log, BatchDelivery(p, w).log, done);
    AllAckedCons(BatchDelivery(p, w).log, done, NextBatch(p, w), Batches(p.caps, AfterBatch(p, w).buffer));
  }

  lemma RaisesCons(p: Settings, w: World, done: seq<seq<Attempt>>, failing: seq<Attempt>)
    requires Positional(p.client) && w.buffer != [] && BatchDelivery(p, w).result.Ok?
    requires RaisesInOrder(p, AfterBatch(p, w), done, failing)
    ensures RaisesInOrder(p, w, [BatchDelivery(p, w).log] + done, failing)
  {
    BatchesHead(p, w);
    BatchDeliveryFacts(p, w);
    FlattenCons(w.log, BatchDelivery(p, w).log, done);
    var (after, verdict) := SendAllSpec(p, w);
    RaisedAtCons(NextBatch(p, w), Batches(p.caps, AfterBatch(p, w).buffer), BatchDelivery(p, w).log, done,
                 failing, verdict.error, after.buffer);
  }

  lemma RaisesAtOnce(p: Settings, w: World)
    requires Positional(p.client) && w.buffer != [] && BatchDelivery(p, w).result.Err?
    ensures RaisesInOrder(p, w, [], BatchDelivery(p, w).log)
  {
    BatchesHead(p, w);
    BatchDeliveryFacts(p, w);
    var rest := Batches(p.caps, AfterBatch(p, w).buffer);
    assert ([NextBatch(p, w)] + rest)[1..] == rest;
    assert w.log + Flatten([]) == w.log;
  }

  // Whole histories.

  datatype Op = Produce(record: Record) | Poll | Flush

  function Do(p: Settings, w: World, op: Op): (World, Verdict)
  {
    match op
    case Produce(record) => (ProduceSpec(w, record), Ok(0))
    case Poll => PollSpec(p, w)
    case Flush => FlushSpec(p, w)
  }

  function Run(p: Settings, ops: seq<Op>): World
  {
    if ops == [] then EMPTY else Do(p, Run(p, ops[..|ops| - 1]), ops[|ops| - 1]).0
  }

  /** No operation of the history raised. */
  predicate Clean(p: Settings, ops: seq<Op>)
  {
    ops == [] || (Clean(p, ops[..|ops| - 1]) && Do(p, Run(p, ops[..|ops| - 1]), ops[|ops| - 1]).1.Ok?)
  }

  /** Every record produced is acknowledged, or named by a raise, or still buffered: exactly once. */
  predicate Books(w: World)
  {
    && multiset(w.produced) == multiset(AckedIn(w.log)) + multiset(w.stranded) + multiset(w.buffer)
    && w.bufferedBytes == Bytes(w.buffer)
  }

  // What the returned counts mean.

  /** No request but the last got a record acknowledged. */
  predicate OnlyLastAcks(log: seq<Attempt>) { forall i :: 0 <= i < |log| - 1 ==> log[i].acked == [] }

  lemma OnlyLastAcksCons(first: Attempt, later: seq<Attempt>)
    requires later != []
    ensures OnlyLastAcks([first] + later) <==> first.acked == [] && OnlyLastAcks(later)
    ensures |AckedIn([first] + later)| == |first.acked| + |AckedIn(later)|
  {
    var log := [first] + later;
    assert log[1..] == later;
    if OnlyLastAcks(log) {
      assert log[0] == first;
      forall i | 0 <= i < |later| - 1 ensures later[i].acked == [] { assert log[i + 1] == later[i]; }
    }
  }

  /** A batch's count never exceeds the number delivered, and is that number exactly when no request but the
      last delivered anything. */
  lemma {:induction false} CountIsDeliveredExactlyWhen(client: Client, n: nat, records: seq<Record>, pending: seq<Record>, attempts: int)
    requires Positional(client) && Deliver(client, n, records, pending, attempts).result.Ok?
    ensures var d := Deliver(client, n, records, pending, attempts);
            && d.log != [] && d.result.value <= |AckedIn(d.log)|
            && (d.result.value == |AckedIn(d.log)| <==> OnlyLastAcks(d.log))
    decreases if attempts < 0 then 0 else attempts
  {
    var answer := client(n, pending);
    assert WellFormed(pending, answer);
    if answer.failedCount == 0 {
      AckedOne(Attempt(pending, pending));
    } else {
      var again := Marked(pending, answer.errors, true);
      CountIsDeliveredExactlyWhen(client, n + 1, records, again, attempts - 1);
      OnlyLastAcksCons(Attempt(pending, Marked(pending, answer.errors, false)), Deliver(client, n + 1, records, again, attempts - 1).log);
    }
  }

  predicate AllOnlyLastAck(groups: seq<seq<Attempt>>) { forall g <- groups :: OnlyLastAcks(g) }

  lemma BatchCount(p: Settings, w: World)
    requires Positional(p.client) && w.buffer != [] && BatchDelivery(p, w).result.Ok?
    ensures var d := BatchDelivery(p, w);
            && d.result.value <= |NextBatch(p, w)|
            && (d.result.value == |NextBatch(p, w)| <==> OnlyLastAcks(d.log))
  {
    CountIsDeliveredExactlyWhen(p.client, |w.log|, NextBatch(p, w), NextBatch(p, w), p.maxAttempts);
    BatchDeliveryFacts(p, w);
    assert |multiset(NextBatch(p, w))| == |multiset(AckedIn(BatchDelivery(p, w).log))|;
  }

  /** Sending everything delivers the whole buffer. The count it returns is never more than that, and is that
      exactly when in every batch no request but the last delivered anything. */
  lemma {:induction false} SentIsDeliveredExactlyWhen(p: Settings, w: World) returns (done: seq<seq<Attempt>>)
    requires Positional(p.client) && SendAllSpec(p, w).1.Ok?
    ensures EndsInOrder(p, w, done) && |done| == |Batches(p.caps, w.buffer)|
    ensures SendAllSpec(p, w).1.value <= |w.buffer|
    ensures SendAllSpec(p, w).1.value == |w.buffer| <==> AllOnlyLastAck(done)
    decreases |w.buffer|
  {
    done := [];
    if w.buffer != [] {
      var rest := SentIsDeliveredExactlyWhen(p, AfterBatch(p, w));
      EndsCons(p, w, rest);
      BatchesHead(p, w);
      BatchCount(p, w);
      done := [BatchDelivery(p, w).log] + rest;
      assert AllOnlyLastAck(done) <==> OnlyLastAcks(BatchDelivery(p, w).log) && AllOnlyLastAck(rest) by {
        assert done[0] == BatchDelivery(p, w).log && done[1..] == rest;
      }
    }
  }

  /** The same for poll, which delivers the whole buffer or, below both thresholds, nothing. */
  lemma PollIsDeliveredExactlyWhen(p: Settings, w: World) returns (done: seq<seq<Attempt>>)
    requires Positional(p.client) && PollSpec(p, w).1.Ok?
    ensures PollSpec(p, w).0.log == w.log + Flatten(done)
    ensures var delivered := |w.buffer| - |PollSpec(p, w).0.buffer|;
            && (delivered == |w.buffer| || delivered == 0)
            && PollSpec(p, w).1.value <= delivered
            && (PollSpec(p, w).1.value == delivered <==> AllOnlyLastAck(done))
  {
    if AtThreshold(p, w) {
      done := SentIsDeliveredExactlyWhen(p, w);
    } else {
      done := [];
      assert w.log + Flatten(done) == w.log;
    }
  }

  function NoErrors(n: nat): (errors: seq<bool>)
    ensures |errors| == n && forall e <- errors :: !e
  {
    if n == 0 then [] else [false] + NoErrors(n - 1)
  }

  /** A client that fails the first record of its first request and accepts everything after. */
  function FailsFirst(n: nat, sent: seq<Record>): Response
  {
    if n == 0 && sent != [] then Reply(1, [true] + NoErrors(|sent| - 1)) else Reply(0, NoErrors(|sent|))
  }

  lemma {:induction false} NoneMarked(records: seq<Record>, errors: seq<bool>)
    requires forall e <- errors :: !e
    ensures Marked(records, errors, true) == []
  {
    if records != [] && errors != [] {
      assert errors[0] in errors && forall e <- errors[1..] :: e in errors;
      NoneMarked(records[1..], errors[1..]);
    }
  }

  lemma FailsFirstIsPositional()
    ensures Positional(FailsFirst)
  {
    forall n, sent ensures WellFormed(sent, FailsFirst(n, sent)) {
      if n == 0 && sent != [] {
        assert ([true] + NoErrors(|sent| - 1))[1..] == NoErrors(|sent| - 1);
        NoneMarked(sent[1..], NoErrors(|sent| - 1));
      } else {
        NoneMarked(sent, NoErrors(|sent|));
      }
    }
  }

  const TWO_RECORDS := Settings(Caps(2, 4_500_000), 8, FailsFirst)

  /** The counts do understate: with one record of two failing once, poll answers 1 and has delivered 2. */
  lemma PollCanUnderstate(a: Record, b: Record)
    requires |a.data| + |b.data| <= 4_500_000
    ensures Positional(TWO_RECORDS.client)
    ensures var w := Run(TWO_RECORDS, [Produce(a), Produce(b)]);
            && PollSpec(TWO_RECORDS, w).1 == Ok(1)
            && AckedIn(PollSpec(TWO_RECORDS, w).0.log) == [b, a] && PollSpec(TWO_RECORDS, w).0.buffer == []
  {
    var w := TwoProduced(a, b);
    BytesSnoc([], a);
    BytesSnoc([a], b);
    assert [] + [a] == [a] && [a] + [b] == [a, b] && [a, b][..2] == [a, b] && [a, b][2..] == [];
    assert BatchLength(TWO_RECORDS.caps, [a, b]) == 2;
    FlakyDelivery(a, b);
    var after := AfterBatch(TWO_RECORDS, w);
    assert NextBatch(TWO_RECORDS, w) == [a, b] && after.buffer == [];
    assert SendAllSpec(TWO_RECORDS, after) == (after, Ok(0));
    var first, second := Attempt([a, b], [b]), Attempt([a], [a]);
    assert after.log == [first, second] && [first, second][1..] == [second];
    AckedOne(second);
    assert [b] + [a] == [b, a];
    FailsFirstIsPositional();
  }

  lemma TwoProduced(a: Record, b: Record) returns (w: World)
    ensures w == Run(TWO_RECORDS, [Produce(a), Produce(b)])
    ensures w == World([a, b], |a.data| + |b.data|, [a, b], [], [])
  {
    var ops := [Produce(a), Produce(b)];
    assert ops[..1] == [Produce(a)] && [Produce(a)][..0] == [];
    assert [] + [a] == [a] && [a] + [b] == [a, b];
    assert Run(TWO_RECORDS, [Produce(a)]) == World([a], |a.data|, [a], [], []);
    w := Run(TWO_RECORDS, ops);
  }

  lemma FlakyDelivery(a: Record, b: Record)
    ensures Deliver(FailsFirst, 0, [a, b], [a, b], 8) == Delivery([Attempt([a, b], [b]), Attempt([a], [a])], Ok(1))
  {
    var errors := FailsFirst(0, [a, b]).errors;
    assert NoErrors(1) == [false] && errors == [true, false];
    assert [a, b][1..] == [b] && errors[1..] == [false] && [b][1..] == [] && [false][1..] == [];
    assert Marked([b], [false], true) == [] && Marked([b], [false], false) == [b];
    assert Marked([a, b], errors, true) == [a] && Marked([a, b], errors, false) == [b];
    assert Deliver(FailsFirst, 1, [a, b], [a], 7) == Delivery([Attempt([a], [a])], Ok(1));
    assert [Attempt([a, b], [b])] + [Attempt([a], [a])] == [Attempt([a, b], [b]), Attempt([a], [a])];
  }

  lemma SplitBuffer(buffer: seq<Record>, n: nat)
    requires n <= |buffer|
    ensures multiset(buffer) == multiset(buffer[..n]) + multiset(buffer[n..])
  {
    assert buffer == buffer[..n] + buffer[n..];
  }

  /** The sink after one batch, whether or not its delivery raised. */
  function AfterDelivery(p: Settings, w: World): World
    requires w.buffer != []
  {
    AfterBatch(p, w).(stranded := w.stranded + Named(BatchDelivery(p, w).result))
  }

  lemma BatchKeepsBooks(p: Settings, w: World)
    requires Positional(p.client) && Books(w) && w.buffer != []
    ensures Books(AfterDelivery(p, w))
  {
    BatchDeliveryFacts(p, w);
    SplitBuffer(w.buffer, BatchLength(p.caps, w.buffer));
    AckedAppend(w.log, BatchDelivery(p, w).log);
  }

  lemma {:induction false} SendAllKeepsBooks(p: Settings, w: World)
    requires Positional(p.client) && Books(w)
    ensures Books(SendAllSpec(p, w).0) && SendAllSpec(p, w).0.produced == w.produced
    ensures SendAllSpec(p, w).1.Ok? ==> SendAllSpec(p, w).0.buffer == [] && SendAllSpec(p, w).0.stranded == w.stranded
    decreases |w.buffer|
  {
    if w.buffer != [] {
      BatchKeepsBooks(p, w);
      if BatchDelivery(p, w).result.Ok? {
        assert w.stranded + [] == w.stranded;
        assert AfterDelivery(p, w) == AfterBatch(p, w);
        SendAllKeepsBooks(p, AfterBatch(p, w));
      }
    }
  }

  lemma DoKeepsBooks(p: Settings, w: World, op: Op)
    requires Positional(p.client) && Books(w)
    ensures Books(Do(p, w, op).0)
    ensures Do(p, w, op).1.Ok? ==> Do(p, w, op).0.stranded == w.stranded
  {
    match op
    case Produce(record) =>
      BytesSnoc(w.buffer, record);
      assert multiset(w.produced + [record]) == multiset(w.produced) + multiset{record};
      assert multiset(w.buffer + [record]) == multiset(w.buffer) + multiset{record};
    case Poll => SendAllKeepsBooks(p, w);
    case Flush => SendAllKeepsBooks(p, w);
  }

  /** Exactly-once acknowledgement. In every history of produce, poll and flush against a positional client,
      the records produced are exactly those acknowledged, those named by raises and those still buffered,
      with multiplicity; a history without a raise strands nothing; and the byte count is the buffer's. */
  lemma {:induction false} AckedExactlyOnce(p: Settings, ops: seq<Op>)
    requires Positional(p.client)
    ensures Books(Run(p, ops))
    ensures Clean(p, ops) ==> Run(p, ops).stranded == []
  {
    if ops != [] {
      AckedExactlyOnce(p, ops[..|ops| - 1]);
      DoKeepsBooks(p, Run(p, ops[..|ops| - 1]), ops[|ops| - 1]);
    }
  }

  /** A history that did not raise and ends in a flush has everything acknowledged. */
  lemma {:induction false} FlushedMeansAcked(p: Settings, ops: seq<Op>)
    requires Positional(p.client) && Clean(p, ops) && ops != [] && ops[|ops| - 1] == Flush
    ensures multiset(AckedIn(Run(p, ops).log)) == multiset(Run(p, ops).produced)
    ensures Run(p, ops).buffer == []
  {
    var before := Run(p, ops[..|ops| - 1]);
    AckedExactlyOnce(p, ops[..|ops| - 1]);
    AckedExactlyOnce(p, ops);
    SendAllKeepsBooks(p, before);
  }

  // The discipline of IngestRunner.drain: a poll after every produce, and polls while idle.

  datatype Turn = Publish(record: Record) | Idle

  function Ops(turns: seq<Turn>): seq<Op>
  {
    if turns == [] then [] else
      match turns[|turns| - 1]
      case Publish(record) => Ops(turns[..|turns| - 1]) + [Produce(record)] + [Poll]
      case Idle => Ops(turns[..|turns| - 1]) + [Poll]
  }

  predicate BelowThresholds(p: Settings, w: World)
  {
    |w.buffer| < p.caps.maxBatch && w.bufferedBytes < p.caps.maxBytes
  }

  /** One more record on a buffer below both thresholds: at most max_batch records, at most two requests
      worth of batches. */
  lemma OneMoreIsTwoBatches(p: Settings, w: World, r: Record)
    requires BelowThresholds(p, w) && w.bufferedBytes == Bytes(w.buffer)
    ensures |ProduceSpec(w, r).buffer| <= p.caps.maxBatch
    ensures |Batches(p.caps, ProduceSpec(w, r).buffer)| <= 2
  {
    FlattenOne([r]);
    if w.buffer == [] {
      assert w.buffer + [r] == [r];
      BatchingIsOptimal(p.caps, w.buffer + [r], [[r]]);
    } else {
      assert ([w.buffer] + [[r]])[1..] == [[r]];
      BatchingIsOptimal(p.caps, w.buffer + [r], [w.buffer] + [[r]]);
    }
  }

  lemma FlattenOne<T>(part: seq<T>)
    ensures Flatten([part]) == part
  {
    assert Flatten([part][1..]) == [] && part + [] == part;
  }

  lemma PollEndsBelow(p: Settings, w: World)
    requires Positional(p.client) && Books(w) && p.caps.maxBatch >= 1 && p.caps.maxBytes >= 1
    requires PollSpec(p, w).1.Ok?
    ensures BelowThresholds(p, PollSpec(p, w).0)
  {
    SendAllKeepsBooks(p, w);
  }

  /** Drain's bound. In every history of drain turns without a raise, the buffer is below both thresholds
      after each turn, whatever is published next makes it at most max_batch records long, and the poll that
      follows sends at most two batches. */
  lemma {:induction false} DrainStaysBounded(p: Settings, turns: seq<Turn>, next: Record)
    requires Positional(p.client) && p.caps.maxBatch >= 1 && p.caps.maxBytes >= 1 && Clean(p, Ops(turns))
    ensures var w := Run(p, Ops(turns));
            && BelowThresholds(p, w)
            && |ProduceSpec(w, next).buffer| <= p.caps.maxBatch
            && |Batches(p.caps, ProduceSpec(w, next).buffer)| <= 2
  {
    var ops := Ops(turns);
    AckedExactlyOnce(p, ops);
    if turns != [] {
      var n := |turns| - 1;
      var before := ops[..|ops| - 1];
      assert ops[|ops| - 1] == Poll;
      AckedExactlyOnce(p, before);
      PollEndsBelow(p, Run(p, before));
    }
    OneMoreIsTwoBatches(p, Run(p, ops), next);
  }
}
