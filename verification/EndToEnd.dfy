/** The ingest runtime publishing through KinesisSink: from an observed trade to an acknowledged record. */
module EndToEnd {
  import opened Prelude
  import opened KinesisBatching
  import Gaps
  import P = IngestProtocol
  import Safety = IngestSafety
  import K = KinesisSink
  import G = KinesisGuarantees

  /** encode_trade and the partition key, as one opaque function. */
  type Encoder = P.Trade -> Record

  /** The runner's calls on its sink, as operations of the Kinesis sink. */
  function SinkHistory(ops: seq<P.SinkOp>, encode: Encoder): seq<G.Op>
  {
    seq(|ops|, i requires 0 <= i < |ops| =>
      match ops[i]
      case Produce(trade) => G.Produce(encode(trade))
      case Poll => G.Poll
      case Flush => G.Flush)
  }

  lemma HistorySnoc(ops: seq<P.SinkOp>, op: P.SinkOp, encode: Encoder)
    ensures SinkHistory(ops + [op], encode) == SinkHistory(ops, encode) + SinkHistory([op], encode)
  {
  }

  lemma ProducedAfter(p: K.Settings, history: seq<G.Op>, op: G.Op)
    requires G.Positional(p.client)
    ensures G.Run(p, history + [op]).produced
            == if op.Produce? then G.Run(p, history).produced + [op.record] else G.Run(p, history).produced
  {
    assert (history + [op])[..|history|] == history;
    G.AckedExactlyOnce(p, history);
    G.SendAllKeepsBooks(p, G.Run(p, history));
  }

  lemma {:induction false} ProducedAgree(p: K.Settings, ops: seq<P.SinkOp>, encode: Encoder)
    requires G.Positional(p.client)
    ensures G.Run(p, SinkHistory(ops, encode)).produced == Map(P.Produced(ops), encode)
  {
    if ops != [] {
      var n := |ops| - 1;
      var before := SinkHistory(ops[..n], encode);
      assert ops == ops[..n] + [ops[n]];
      HistorySnoc(ops[..n], ops[n], encode);
      ProducedAgree(p, ops[..n], encode);
      ProducedAfter(p, before, SinkHistory([ops[n]], encode)[0]);
      assert SinkHistory([ops[n]], encode) == [SinkHistory([ops[n]], encode)[0]];
      if ops[n].Produce? {
        MapSnoc(P.Produced(ops[..n]), ops[n].trade, encode);
      }
    }
  }

  // Runs in which the sink decides: what drain sees of its calls is what KinesisSink does.

  function SinkAfter(p: K.Settings, ops: seq<P.SinkOp>, encode: Encoder): K.World { G.Run(p, SinkHistory(ops, encode)) }

  predicate PollOk(p: K.Settings, ops: seq<P.SinkOp>, encode: Encoder) { K.PollSpec(p, SinkAfter(p, ops, encode)).1.Ok? }

  predicate FlushOk(p: K.Settings, ops: seq<P.SinkOp>, encode: Encoder) { K.FlushSpec(p, SinkAfter(p, ops, encode)).1.Ok? }

  /** The outcomes named by a step are the sink's own verdicts; its produce only buffers. */
  predicate SinkDecides(c: P.Config, p: K.Settings, s: P.State, step: P.Step, encode: Encoder)
    requires P.Enabled(c, s, step)
  {
    var ops := s.pipe.sinkOps;
    if step.DrainStart? then step.flushOk == FlushOk(p, ops, encode)
    else if step.DrainIdle? then
      step.pollOk == PollOk(p, ops, encode) && step.flushOk == FlushOk(p, ops + [P.Poll], encode)
    else if step.DrainTake? then
      var produced := ops + [P.Produce(s.pipe.queue[0])];
      && step.outcome == (if PollOk(p, produced, encode) then P.Published else P.PollRaised)
      && step.flushOk == FlushOk(p, produced + [P.Poll], encode)
    else true
  }

  predicate DecidedRun(c: P.Config, p: K.Settings, s: P.State, steps: seq<P.Step>, encode: Encoder)
    requires P.IsRun(c, s, steps)
    decreases |steps|
  {
    steps == [] || (SinkDecides(c, p, s, steps[0], encode) && DecidedRun(c, p, P.Apply(c, s, steps[0]), steps[1..], encode))
  }

  /** States the runner reaches over this sink. */
  ghost predicate Driven(c: P.Config, p: K.Settings, s: P.State, encode: Encoder)
  {
    exists steps :: P.IsRun(c, P.START, steps) && DecidedRun(c, p, P.START, steps, encode) && P.Exec(c, P.START, steps) == s
  }

  lemma CleanSnoc(p: K.Settings, ops: seq<P.SinkOp>, op: P.SinkOp, encode: Encoder)
    ensures G.Clean(p, SinkHistory(ops + [op], encode)) <==>
            && G.Clean(p, SinkHistory(ops, encode))
            && (op.Poll? ==> PollOk(p, ops, encode)) && (op.Flush? ==> FlushOk(p, ops, encode))
  {
    var history := SinkHistory(ops + [op], encode);
    HistorySnoc(ops, op, encode);
    assert history[..|history| - 1] == SinkHistory(ops, encode);
  }

  /** Drain is dead exactly when its sink has raised. */
  predicate DiedOfSink(p: K.Settings, pipe: P.Pipe, encode: Encoder)
  {
    pipe.drain.Dead? <==> !G.Clean(p, SinkHistory(pipe.sinkOps, encode))
  }

  lemma ExitDiesOfSink(p: K.Settings, pipe: P.Pipe, stop: bool, flushOk: bool, encode: Encoder)
    requires G.Clean(p, SinkHistory(pipe.sinkOps, encode)) && !pipe.drain.Dead?
    requires flushOk == FlushOk(p, pipe.sinkOps, encode)
    ensures DiedOfSink(p, P.LoopOrExit(pipe, stop, flushOk), encode)
  {
    CleanSnoc(p, pipe.sinkOps, P.Flush, encode);
  }

  lemma TakeDiesOfSink(p: K.Settings, pipe: P.Pipe, stop: bool, pollOk: bool, flushOk: bool, encode: Encoder)
    requires DiedOfSink(p, pipe, encode) && pipe.drain.Waiting? && pipe.queue != []
    requires pollOk == PollOk(p, pipe.sinkOps + [P.Produce(pipe.queue[0])], encode)
    requires flushOk == FlushOk(p, pipe.sinkOps + [P.Produce(pipe.queue[0])] + [P.Poll], encode)
    ensures DiedOfSink(p, P.Taken(pipe, stop, if pollOk then P.Published else P.PollRaised, flushOk), encode)
  {
    var produced := pipe.sinkOps + [P.Produce(pipe.queue[0])];
    CleanSnoc(p, pipe.sinkOps, P.Produce(pipe.queue[0]), encode);
    CleanSnoc(p, produced, P.Poll, encode);
    if pollOk {
      ExitDiesOfSink(p, pipe.(queue := pipe.queue[1..], sinkOps := produced + [P.Poll]), stop, flushOk, encode);
    }
  }

  lemma StepDiesOfSink(c: P.Config, p: K.Settings, s: P.State, step: P.Step, encode: Encoder)
    requires P.Enabled(c, s, step) && SinkDecides(c, p, s, step, encode) && DiedOfSink(p, s.pipe, encode)
    ensures DiedOfSink(p, P.Apply(c, s, step).pipe, encode)
  {
    if step.DrainStart? {
      ExitDiesOfSink(p, s.pipe, s.stop, step.flushOk, encode);
    } else if step.DrainIdle? {
      CleanSnoc(p, s.pipe.sinkOps, P.Poll, encode);
      if step.pollOk {
        ExitDiesOfSink(p, s.pipe.(sinkOps := s.pipe.sinkOps + [P.Poll]), s.stop, step.flushOk, encode);
      }
    } else if step.DrainTake? {
      TakeDiesOfSink(p, s.pipe, s.stop, step.outcome.Published?, step.flushOk, encode);
    } else {
      SinkUntouched(c, s, step);
    }
  }

  lemma SinkUntouched(c: P.Config, s: P.State, step: P.Step)
    requires P.Enabled(c, s, step) && !step.DrainStart? && !step.DrainIdle? && !step.DrainTake?
    ensures P.Apply(c, s, step).pipe.sinkOps == s.pipe.sinkOps && P.Apply(c, s, step).pipe.drain == s.pipe.drain
  {
  }

  lemma {:induction false} RunDiesOfSink(c: P.Config, p: K.Settings, s: P.State, steps: seq<P.Step>, encode: Encoder)
    requires P.IsRun(c, s, steps) && DecidedRun(c, p, s, steps, encode) && DiedOfSink(p, s.pipe, encode)
    ensures DiedOfSink(p, P.Exec(c, s, steps).pipe, encode)
    decreases |steps|
  {
    if steps != [] {
      StepDiesOfSink(c, p, s, steps[0], encode);
      RunDiesOfSink(c, p, P.Apply(c, s, steps[0]), steps[1..], encode);
    }
  }

  /** Over the sink, in every interleaving, drain is dead exactly when the sink has raised; in particular it
      returns only if no call ever raised. */
  lemma DrainDiesExactlyWhenSinkRaises(c: P.Config, p: K.Settings, s: P.State, encode: Encoder)
    requires Driven(c, p, s, encode)
    ensures P.Reachable(c, s)
    ensures s.pipe.drain.Dead? <==> !G.Clean(p, SinkHistory(s.pipe.sinkOps, encode))
  {
    var steps :| P.IsRun(c, P.START, steps) && DecidedRun(c, p, P.START, steps, encode) && P.Exec(c, P.START, steps) == s;
    assert SinkHistory([], encode) == [];
    RunDiesOfSink(c, p, P.START, steps, encode);
  }

  /** End to end. When drain has returned, every trade that had entered the queue by then, from the stream or
      from a repair, is acknowledged by the stream exactly as often as it was accepted; whatever is still in
      the queue arrived after drain left. */
  lemma AcceptedTradesAreAcknowledged(c: P.Config, s: P.State, p: K.Settings, encode: Encoder)
    requires Driven(c, p, s, encode) && s.pipe.drain.Returned? && G.Positional(p.client)
    ensures |s.pipe.queue| <= |s.pipe.accepted|
    ensures var drained := s.pipe.accepted[..|s.pipe.accepted| - |s.pipe.queue|];
            && s.pipe.accepted == drained + s.pipe.queue
            && multiset(G.AckedIn(G.Run(p, SinkHistory(s.pipe.sinkOps, encode)).log)) == multiset(Map(drained, encode))
  {
    DrainDiesExactlyWhenSinkRaises(c, p, s, encode);
    P.ReachableInv(c, s);
    ProducedWhenReturned(c, s.pipe, s.stop);
    ProducedAgree(p, s.pipe.sinkOps, encode);
    G.FlushedMeansAcked(p, SinkHistory(s.pipe.sinkOps, encode));
  }

  lemma ProducedWhenReturned(c: P.Config, p: P.Pipe, stop: bool)
    requires P.PipeInv(c, p, stop) && p.drain.Returned?
    ensures |p.queue| <= |p.accepted| && p.accepted == P.Produced(p.sinkOps) + p.queue
    ensures p.accepted[..|p.accepted| - |p.queue|] == P.Produced(p.sinkOps)
    ensures p.sinkOps != [] && p.sinkOps[|p.sinkOps| - 1] == P.Flush
  {
    var drained := P.Produced(p.sinkOps);
    assert p.accepted == drained + p.queue;
    assert p.accepted[..|drained|] == drained;
  }

  /** The same at every moment of every run, raises included: what was accepted is, with multiplicity, what is
      acknowledged, what a raise named, what the sink still buffers, the trade drain died holding, and the queue. */
  lemma AcceptedTradesAreSomewhere(c: P.Config, s: P.State, p: K.Settings, encode: Encoder)
    requires P.Reachable(c, s) && G.Positional(p.client)
    ensures var w := G.Run(p, SinkHistory(s.pipe.sinkOps, encode));
            multiset(Map(s.pipe.accepted, encode))
            == multiset(G.AckedIn(w.log)) + multiset(w.stranded) + multiset(w.buffer)
               + multiset(Map(P.Hand(s.pipe.drain), encode)) + multiset(Map(s.pipe.queue, encode))
  {
    P.ReachableInv(c, s);
    var produced, hand := P.Produced(s.pipe.sinkOps), P.Hand(s.pipe.drain);
    ProducedAgree(p, s.pipe.sinkOps, encode);
    G.AckedExactlyOnce(p, SinkHistory(s.pipe.sinkOps, encode));
    ThreeParts(produced, hand, s.pipe.queue, encode);
  }

  lemma ThreeParts<S, T>(a: seq<S>, b: seq<S>, c: seq<S>, f: S -> T)
    ensures multiset(Map(a + b + c, f)) == multiset(Map(a, f)) + multiset(Map(b, f)) + multiset(Map(c, f))
  {
    assert Map(a + b + c, f) == Map(a, f) + Map(b, f) + Map(c, f);
  }

  /** A raise does not by itself turn into a gap. Once drain is dead its sink is not called again, and at a
      persistent venue an observed trade, stranded or not, is named by a report, in any continuation, exactly
      when its number is not below the key's first and never moved the watermark. */
  lemma RaiseIsReportedExactlyWhen(c: P.Config, s: P.State, steps: seq<P.Step>, i: nat, key: Gaps.Key, first: int)
    requires P.Reachable(c, s) && !c.resetsOnReconnect && s.pipe.drain.Dead? && P.IsRun(c, s, steps)
    requires Gaps.Numbered(P.Observations(c, s.watch.seen), i, key) && Gaps.IsFirst(P.Observations(c, s.watch.seen), key, first)
    ensures P.Exec(c, s, steps).pipe.drain == s.pipe.drain && P.Exec(c, s, steps).pipe.sinkOps == s.pipe.sinkOps
    ensures var history := P.Observations(c, s.watch.seen);
            Safety.Reported(c, P.Exec(c, s, steps), s.watch.seen[i])
            <==> first <= history[i].sequence.value && !Gaps.RecordId(history, key, history[i].sequence.value)
  {
    DeadDrainStaysDead(c, s, steps);
    Safety.ReportedExactlyWhen(c, s, steps, i, key, first);
  }

  lemma {:induction false} DeadDrainStaysDead(c: P.Config, s: P.State, steps: seq<P.Step>)
    requires s.pipe.drain.Dead? && P.IsRun(c, s, steps)
    ensures P.Exec(c, s, steps).pipe.drain == s.pipe.drain && P.Exec(c, s, steps).pipe.sinkOps == s.pipe.sinkOps
    decreases |steps|
  {
    if steps != [] {
      DeadDrainStaysDead(c, P.Apply(c, s, steps[0]), steps[1..]);
    }
  }

  /** A client that is never reached. */
  function AlwaysRaises(n: nat, sent: seq<Record>): K.Response { K.Raised }

  const RAISING := K.Settings(Caps(1, 4_500_000), 8, AlwaysRaises)

  /** A raise can strand a trade for good: the first trade's poll raises, drain dies, the record is named by the
      raise and acknowledged by nobody, and no report names the trade in any continuation. */
  lemma RaiseStrandsATrade(t: P.Trade, encode: Encoder) returns (s: P.State)
    requires t.source.Stream?
    ensures G.Positional(RAISING.client) && Driven(Safety.BINANCE, RAISING, s, encode) && s.pipe.drain.Dead?
    ensures var w := SinkAfter(RAISING, s.pipe.sinkOps, encode); w.stranded == [encode(t)] && G.AckedIn(w.log) == []
    ensures s.watch.seen == [P.Seen(t, 1)]
    ensures forall steps :: P.IsRun(Safety.BINANCE, s, steps) ==> !Safety.Reported(Safety.BINANCE, P.Exec(Safety.BINANCE, s, steps), s.watch.seen[0])
  {
    s := FirstPollRaised(t, encode);
    PollRaises(t, encode);
    DrainDiesExactlyWhenSinkRaises(Safety.BINANCE, RAISING, s, encode);
    P.ReachableInv(Safety.BINANCE, s);
    StaysUnreported(Safety.BINANCE, s, s.watch.seen[0]);
  }

  lemma StaysUnreported(c: P.Config, s: P.State, e: P.Seen)
    requires P.Inv(c, s) && e in s.watch.seen && s.watch.reports == []
    ensures forall steps :: P.IsRun(c, s, steps) ==> !Safety.Reported(c, P.Exec(c, s, steps), e)
  {
    forall steps | P.IsRun(c, s, steps) ensures !Safety.Reported(c, P.Exec(c, s, steps), e) {
      Safety.SilenceIsFinal(c, s, steps, e);
    }
  }

  lemma FirstPollRaised(t: P.Trade, encode: Encoder) returns (s: P.State)
    requires t.source.Stream?
    ensures Driven(Safety.BINANCE, RAISING, s, encode)
    ensures s.pipe.drain.Dead? && s.pipe.sinkOps == [P.Produce(t), P.Poll]
    ensures s.watch.seen == [P.Seen(t, 1)] && s.watch.reports == []
  {
    s := FirstTradeQueued(t, encode);
    PollRaises(t, encode);
    var calls := [P.Produce(t)] + [P.Poll];
    assert s.pipe.sinkOps + [P.Produce(s.pipe.queue[0])] == [P.Produce(t)] && calls == [P.Produce(t), P.Poll];
    s := DrivenStep(Safety.BINANCE, RAISING, s, P.DrainTake(P.PollRaised, FlushOk(RAISING, calls, encode)), encode);
  }

  lemma DrivenStep(c: P.Config, p: K.Settings, s: P.State, step: P.Step, encode: Encoder) returns (s': P.State)
    requires Driven(c, p, s, encode) && P.Enabled(c, s, step) && SinkDecides(c, p, s, step, encode)
    ensures s' == P.Apply(c, s, step) && Driven(c, p, s', encode)
  {
    var steps :| P.IsRun(c, P.START, steps) && DecidedRun(c, p, P.START, steps, encode) && P.Exec(c, P.START, steps) == s;
    P.RunSnoc(c, P.START, steps, step);
    DecidedSnoc(c, p, P.START, steps, step, encode);
    s' := P.Apply(c, s, step);
  }

  lemma {:induction false} DecidedSnoc(c: P.Config, p: K.Settings, s: P.State, steps: seq<P.Step>, step: P.Step, encode: Encoder)
    requires P.IsRun(c, s, steps) && DecidedRun(c, p, s, steps, encode) && P.IsRun(c, s, steps + [step])
    requires P.Enabled(c, P.Exec(c, s, steps), step) && SinkDecides(c, p, P.Exec(c, s, steps), step, encode)
    ensures DecidedRun(c, p, s, steps + [step], encode)
    decreases |steps|
  {
    if steps != [] {
      assert (steps + [step])[1..] == steps[1..] + [step];
      DecidedSnoc(c, p, P.Apply(c, s, steps[0]), steps[1..], step, encode);
    } else {
      assert [step][1..] == [];
    }
  }

  lemma FirstSession(c: P.Config, p: K.Settings, encode: Encoder) returns (s: P.State)
    ensures Driven(c, p, s, encode)
    ensures s.pipe == P.START.pipe.(drain := P.Waiting) && s.watch == P.START.watch
    ensures s.socket.phase == P.Pumping([], None) && s.socket.sessions == 1
  {
    assert P.IsRun(c, P.START, []) && DecidedRun(c, p, P.START, [], encode) && P.Exec(c, P.START, []) == P.START;
    s := DrivenStep(c, p, P.START, P.LoopCheck, encode);
    s := DrivenStep(c, p, s, P.DrainStart(FlushOk(p, [], encode)), encode);
    s := DrivenStep(c, p, s, P.Dial(true), encode);
    s := DrivenStep(c, p, s, P.Subscribe(true), encode);
  }

  lemma FirstTradeQueued(t: P.Trade, encode: Encoder) returns (s: P.State)
    requires t.source.Stream?
    ensures Driven(Safety.BINANCE, RAISING, s, encode)
    ensures s.pipe == P.Pipe([t], P.Waiting, [], [t]) && s.watch.seen == [P.Seen(t, 1)] && s.watch.reports == []
  {
    s := FirstSession(Safety.BINANCE, RAISING, encode);
    s := DrivenStep(Safety.BINANCE, RAISING, s, P.Frame([t]), encode);
    s := DrivenStep(Safety.BINANCE, RAISING, s, P.ObserveNext, encode);
    assert [] + [t] == [t] && [] + [P.Seen(t, 1)] == [P.Seen(t, 1)];
  }

  lemma PollRaises(t: P.Trade, encode: Encoder)
    ensures !PollOk(RAISING, [P.Produce(t)], encode)
    ensures var w := SinkAfter(RAISING, [P.Produce(t), P.Poll], encode); w.stranded == [encode(t)] && G.AckedIn(w.log) == []
  {
    var r := encode(t);
    var w := K.World([r], |r.data|, [r], [], []);
    var history := SinkHistory([P.Produce(t), P.Poll], encode);
    var one := [G.Produce(r)];
    assert one[..|one| - 1] == [] && [] + [r] == [r];
    assert G.Run(RAISING, one) == w;
    assert SinkHistory([P.Produce(t)], encode) == one;
    assert SinkAfter(RAISING, [P.Produce(t)], encode) == w;
    assert history == [G.Produce(r), G.Poll] && history[..1] == one;
    assert BatchLength(RAISING.caps, [r]) == 1 && [r][..1] == [r] && [r][1..] == [];
    assert K.NextBatch(RAISING, w) == [r];
    assert RAISING.client(0, [r]) == K.Raised && K.Deliver(AlwaysRaises, 0, [r], [r], 8) == K.Delivery([K.Attempt([r], [])], Err([r]));
    assert K.BatchDelivery(RAISING, w) == K.Delivery([K.Attempt([r], [])], Err([r]));
    G.AckedOne(K.Attempt([r], []));
    assert [] + [K.Attempt([r], [])] == [K.Attempt([r], [])];
  }

  /** While drain is looping, its calls on the sink are turns: an idle poll, or a produce and a poll. */
  ghost predicate Disciplined(s: P.State, encode: Encoder)
  {
    s.pipe.drain.NotStarted? || s.pipe.drain.Waiting? ==>
      exists turns :: SinkHistory(s.pipe.sinkOps, encode) == G.Ops(turns)
  }

  lemma OneTurn(ops: seq<P.SinkOp>, more: seq<P.SinkOp>, turns: seq<G.Turn>, turn: G.Turn, encode: Encoder)
    requires SinkHistory(ops, encode) == G.Ops(turns)
    requires SinkHistory(more, encode) == SinkHistory(ops, encode) + G.Ops([turn])
    ensures exists turns :: SinkHistory(more, encode) == G.Ops(turns)
  {
    assert (turns + [turn])[..|turns|] == turns;
    assert G.Ops([turn]) == if turn.Idle? then [G.Poll] else [G.Produce(turn.record)] + [G.Poll] by {
      assert G.Ops([turn][..0]) == [];
    }
    assert G.Ops(turns + [turn]) == G.Ops(turns) + G.Ops([turn]);
  }

  lemma KeepsDiscipline(c: P.Config, s: P.State, step: P.Step, encode: Encoder)
    requires Disciplined(s, encode) && P.Enabled(c, s, step)
    ensures Disciplined(P.Apply(c, s, step), encode)
  {
    var p, p' := s.pipe, P.Apply(c, s, step).pipe;
    if p'.drain.Waiting? && p'.sinkOps != p.sinkOps {
      var turns :| SinkHistory(p.sinkOps, encode) == G.Ops(turns);
      if step.DrainIdle? {
        assert SinkHistory(p'.sinkOps, encode) == SinkHistory(p.sinkOps, encode) + G.Ops([G.Idle]);
        OneTurn(p.sinkOps, p'.sinkOps, turns, G.Idle, encode);
      } else {
        var turn := G.Publish(encode(p.queue[0]));
        assert G.Ops([turn][..0]) == [];
        assert SinkHistory(p'.sinkOps, encode) == SinkHistory(p.sinkOps, encode) + G.Ops([turn]);
        OneTurn(p.sinkOps, p'.sinkOps, turns, turn, encode);
      }
    }
  }

  lemma {:induction false} RunKeepsDiscipline(c: P.Config, s: P.State, steps: seq<P.Step>, encode: Encoder)
    requires P.IsRun(c, s, steps) && Disciplined(s, encode)
    ensures Disciplined(P.Exec(c, s, steps), encode)
    decreases |steps|
  {
    if steps != [] {
      KeepsDiscipline(c, s, steps[0], encode);
      RunKeepsDiscipline(c, P.Apply(c, s, steps[0]), steps[1..], encode);
    }
  }

  /** The sink's bound holds under the real runner: whenever drain is waiting for a trade, the sink's buffer is
      below both thresholds, and the next trade makes it at most max_batch records and two batches. */
  lemma RunnerKeepsSinkBounded(c: P.Config, s: P.State, p: K.Settings, encode: Encoder, next: Record)
    requires Driven(c, p, s, encode) && s.pipe.drain.Waiting? && G.Positional(p.client)
    requires p.caps.maxBatch >= 1 && p.caps.maxBytes >= 1
    ensures var w := G.Run(p, SinkHistory(s.pipe.sinkOps, encode));
            && G.BelowThresholds(p, w)
            && |K.ProduceSpec(w, next).buffer| <= p.caps.maxBatch
            && |Batches(p.caps, K.ProduceSpec(w, next).buffer)| <= 2
  {
    DrainDiesExactlyWhenSinkRaises(c, p, s, encode);
    var steps :| P.IsRun(c, P.START, steps) && P.Exec(c, P.START, steps) == s;
    assert SinkHistory(P.START.pipe.sinkOps, encode) == G.Ops([]);
    RunKeepsDiscipline(c, P.START, steps, encode);
    var turns :| SinkHistory(s.pipe.sinkOps, encode) == G.Ops(turns);
    G.DrainStaysBounded(p, turns, next);
  }
}
