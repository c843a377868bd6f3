/** What the interleaved ingest runtime guarantees, over every run. */
module IngestSafety {
  import opened Prelude
  import opened Gaps
  import opened IngestProtocol

  /** What the current tracker has been told. For a venue with persistent ids that is everything ever observed. */
  function History(c: Config, s: State): seq<Observation>
    requires s.watch.epoch <= |s.watch.seen|
  {
    Observations(c, s.watch.seen[s.watch.epoch..])
  }

  function CurrentGaps(s: State): seq<Gap>
    requires s.watch.epochReports <= |s.watch.reports|
  {
    GapsIn(s.watch.reports[s.watch.epochReports..])
  }

  ghost predicate HasStreamId(c: Config, trades: seq<Trade>, key: Key, id: int)
  {
    exists t <- trades :: t.source.Stream? && ObservationOf(c, t) == Observation(key.0, key.1, Some(id))
  }

  /** A stream trade that was observed is in the queue's past, in the pump's hands, or was cancelled. */
  lemma SeenIsSomewhere(c: Config, s: State, i: int)
    requires Inv(c, s) && s.watch.epoch <= i < |s.watch.seen|
    ensures var t := s.watch.seen[i].trade;
            t in FromStream(s.pipe.accepted) || t in TradesOf(HeldUp(s.socket)) || t in TradesOf(s.socket.fates.lost)
  {
    var e, k := s.watch.seen[i], s.socket;
    assert e in multiset(s.watch.seen);
    if e in k.fates.put {
      TradeOfMember(k.fates.put, e);
    } else if e in k.fates.lost {
      TradeOfMember(k.fates.lost, e);
    } else {
      TradeOfMember(HeldUp(k), e);
    }
  }

  lemma TradeOfMember(entries: seq<Seen>, e: Seen)
    requires e in entries
    ensures e.trade in TradesOf(entries)
  {
    var i :| 0 <= i < |entries| && entries[i] == e;
    assert TradesOf(entries)[i] == e.trade;
  }

  lemma ObservedIdIsSomewhere(c: Config, s: State, i: int, key: Key)
    requires Inv(c, s) && Numbered(History(c, s), i, key)
    ensures var id := History(c, s)[i].sequence.value;
            || HasStreamId(c, s.pipe.accepted, key, id)
            || HasStreamId(c, TradesOf(HeldUp(s.socket)), key, id)
            || HasStreamId(c, TradesOf(s.socket.fates.lost), key, id)
  {
    var current := s.watch.seen[s.watch.epoch..];
    var e, id := current[i], History(c, s)[i].sequence.value;
    var t := e.trade;
    assert s.watch.seen[s.watch.epoch + i] == e;
    SeenIsSomewhere(c, s, s.watch.epoch + i);
    SeenIsStream(c, s, e);
    assert ObservationOf(c, t) == Observation(key.0, key.1, Some(id));
    if t in FromStream(s.pipe.accepted) {
      FilterMembers(s.pipe.accepted, IsStream, t);
    }
  }

  lemma SeenIsStream(c: Config, s: State, e: Seen)
    requires Inv(c, s) && e in s.watch.seen
    ensures e.trade.source.Stream?
  {
    var fates := s.socket.fates;
    assert e in multiset(s.watch.seen);
    if e in fates.put {
      TradeOfMember(fates.put, e);
      FilterMembers(s.pipe.accepted, IsStream, e.trade);
    } else if e in fates.lost {
      assert AllStream(fates.lost);
    }
  }

  /** Accounting over every interleaving. At every reachable state, each id between a key's first
      observation and its watermark was enqueued from the stream, lies in a reported gap, is in the pump's
      blocked put, or was lost to a pump cancellation; and no more trades were lost than sessions were
      cancelled. */
  lemma Accounting(c: Config, s: State, key: Key, first: int, id: int)
    requires Reachable(c, s)
    ensures s.watch.epoch <= |s.watch.seen| && s.watch.epochReports <= |s.watch.reports|
    ensures !c.resetsOnReconnect ==> s.watch.epoch == 0
    ensures |s.socket.fates.lost| <= s.socket.cancelled
    ensures IsFirst(History(c, s), key, first) ==> key in s.watch.marks
    ensures IsFirst(History(c, s), key, first) && first <= id <= s.watch.marks[key] ==>
              || HasStreamId(c, s.pipe.accepted, key, id)
              || InGap(CurrentGaps(s), key, id)
              || HasStreamId(c, TradesOf(HeldUp(s.socket)), key, id)
              || HasStreamId(c, TradesOf(s.socket.fates.lost), key, id)
  {
    ReachableInv(c, s);
    if IsFirst(History(c, s), key, first) {
      Tiling(History(c, s), key, first, id);
      if RecordId(History(c, s), key, id) {
        var i :| SetsRecord(History(c, s), i, key) && History(c, s)[i].sequence.value == id;
        ObservedIdIsSomewhere(c, s, i, key);
      }
    }
  }

  /** Exactly once, and in order: the stream's part of what was accepted is the completed puts, and every
      received trade was put, waits in its put or in the frame, was lost with a cancelled put, or was never
      read, with multiplicity. Repaired trades never count as observed. */
  lemma StreamTradesEnqueuedOnce(c: Config, s: State)
    requires Reachable(c, s)
    ensures var k := s.socket;
            && FromStream(s.pipe.accepted) == TradesOf(k.fates.put)
            && multiset(s.watch.seen) == multiset(k.fates.put) + multiset(HeldUp(k)) + multiset(k.fates.lost)
            && multiset(k.fates.received) == multiset(s.watch.seen) + multiset(Unobserved(k)) + multiset(k.fates.unread)
  {
    ReachableInv(c, s);
  }

  // When is a received trade lost without trace? The question is asked of trades, not of their numbers: a
  // venue may give many trades one number, or none.

  /** The entry's number lies in a gap that was reported; a number of a connection-scoped venue only means
      something in its own session. */
  ghost predicate Reported(c: Config, s: State, e: Seen)
  {
    e.trade.sequence.Some? &&
    exists r <- s.watch.reports :: Names(c, r, e)
  }

  predicate Names(c: Config, r: Report, e: Seen)
    requires e.trade.sequence.Some?
  {
    && (c.resetsOnReconnect ==> r.session == e.session)
    && r.gap.Key() == ObservationOf(c, e.trade).Key() && r.gap.Contains(e.trade.sequence.value)
  }

  /** The tracker is past the first number of the key, not yet at this one, and will outlive the session: the
      next larger number reports it. */
  predicate StillAhead(c: Config, s: State, e: Seen)
  {
    var o := ObservationOf(c, e.trade);
    !c.resetsOnReconnect && o.sequence.Some? && o.Key() in s.watch.marks && s.watch.marks[o.Key()] < o.sequence.value
  }

  /** What "still ahead" promises: observing any larger number of the key reports a gap with this number in it. */
  lemma StillAheadIsReported(c: Config, s: State, e: Seen, t: Trade, session: nat)
    requires StillAhead(c, s, e) && ObservationOf(c, t).Key() == ObservationOf(c, e.trade).Key()
    requires t.sequence.Some? && t.sequence.value > e.trade.sequence.value
    ensures Reported(c, s.(watch := Observed(c, s.watch, t, session)), e)
  {
    var reports := Observed(c, s.watch, t, session).reports;
    assert Names(c, reports[|s.watch.reports|], e);
  }

  /** The venue numbers each symbol's trades and never starts over, so that a number names one trade. */
  predicate NumbersNameTrades(c: Config) { c.sequenceSymbol.None? && !c.resetsOnReconnect }

  /** The same trade was enqueued through another delivery or a repair. */
  ghost predicate EnqueuedOtherwise(c: Config, s: State, e: Seen)
  {
    && NumbersNameTrades(c) && e.trade.sequence.Some?
    && HasId(s.pipe.accepted, (e.trade.venue, e.trade.venueSymbol), e.trade.sequence.value)
  }

  ghost predicate Traceable(c: Config, s: State, e: Seen)
  {
    Reported(c, s, e) || StillAhead(c, s, e) || EnqueuedOtherwise(c, s, e)
  }

  /** Received trades, with multiplicity, that were neither enqueued nor are still in the pump's hands. */
  function Missing(k: Socket): multiset<Seen>
  {
    multiset(k.fates.received) - multiset(k.fates.put) - multiset(HeldUp(k)) - multiset(Unobserved(k))
  }

  /** No received trade is missing without a trace. */
  ghost predicate NoSilentLoss(c: Config, s: State) { forall e :: e in Missing(s.socket) ==> Traceable(c, s, e) }

  lemma MissingWentWithThePump(seen: seq<Seen>, accepted: seq<Trade>, k: Socket)
    requires StreamInv(seen, accepted, k)
    ensures Missing(k) == multiset(k.fates.lost + k.fates.unread)
  {
  }

  /** Over every interleaving, no trade was lost silently exactly when every trade that went with a cancelled
      pump, out of its put or unread from its frame, can be traced. */
  lemma NoSilentLossExactlyWhen(c: Config, s: State)
    requires Reachable(c, s)
    ensures NoSilentLoss(c, s) <==> forall e <- s.socket.fates.lost + s.socket.fates.unread :: Traceable(c, s, e)
  {
    ReachableInv(c, s);
    MissingWentWithThePump(s.watch.seen, s.pipe.accepted, s.socket);
    SilentOver(c, s, s.socket.fates.lost + s.socket.fates.unread);
  }

  lemma SilentOver(c: Config, s: State, entries: seq<Seen>)
    requires Missing(s.socket) == multiset(entries)
    ensures NoSilentLoss(c, s) <==> forall e <- entries :: Traceable(c, s, e)
  {
    assert forall e :: e in entries <==> e in multiset(entries);
  }

  lemma CancelAddsToMissing(c: Config, s: State, closeOk: bool)
    requires Inv(c, s) && Enabled(c, s, CancelPump(closeOk))
    ensures Missing(Apply(c, s, CancelPump(closeOk)).socket) == Missing(s.socket) + multiset(HeldUp(s.socket) + Unobserved(s.socket))
  {
    CancelKeepsStream(c, s, closeOk);
    var s' := Apply(c, s, CancelPump(closeOk));
    MissingWentWithThePump(s.watch.seen, s.pipe.accepted, s.socket);
    MissingWentWithThePump(s'.watch.seen, s'.pipe.accepted, s'.socket);
    FourPiles(s.socket.fates.lost, HeldUp(s.socket), s.socket.fates.unread, Unobserved(s.socket));
  }

  lemma FourPiles<T>(a: seq<T>, b: seq<T>, c: seq<T>, d: seq<T>)
    ensures multiset((a + b) + (c + d)) == multiset(a + c) + multiset(b + d)
  {
  }

  lemma TracesAreInTheBooks(c: Config, s: State, s': State, e: Seen)
    requires s'.watch == s.watch && s'.pipe == s.pipe
    ensures Traceable(c, s', e) == Traceable(c, s, e)
  {
    assert Reported(c, s', e) == Reported(c, s, e);
  }

  /** Cancelling a pump loses no trade silently exactly when nothing was lost so before and each trade the
      pump holds, in its put and behind it in the frame, can be traced already. A pump that is not blocked
      holds nothing. */
  lemma CancelIsSilentExactlyWhen(c: Config, s: State, closeOk: bool)
    requires Reachable(c, s) && Enabled(c, s, CancelPump(closeOk))
    ensures NoSilentLoss(c, Apply(c, s, CancelPump(closeOk))) <==>
            NoSilentLoss(c, s) && forall e <- HeldUp(s.socket) + Unobserved(s.socket) :: Traceable(c, s, e)
    ensures s.socket.phase.blocked.None? ==> HeldUp(s.socket) + Unobserved(s.socket) == []
  {
    var s' := Apply(c, s, CancelPump(closeOk));
    ReachableInv(c, s);
    CancelAddsToMissing(c, s, closeOk);
    forall e ensures Traceable(c, s', e) == Traceable(c, s, e) { TracesAreInTheBooks(c, s, s', e); }
    MoreIsMissing(c, s, s', HeldUp(s.socket) + Unobserved(s.socket));
  }

  lemma MoreIsMissing(c: Config, s: State, s': State, held: seq<Seen>)
    requires Missing(s'.socket) == Missing(s.socket) + multiset(held)
    requires forall e :: Traceable(c, s', e) == Traceable(c, s, e)
    ensures NoSilentLoss(c, s') <==> NoSilentLoss(c, s) && forall e <- held :: Traceable(c, s, e)
  {
    assert forall e :: e in Missing(s'.socket) <==> e in Missing(s.socket) || e in held;
  }

  /** A number that moved the watermark is in no gap of its tracker. */
  lemma RecordsAreUnreported(c: Config, s: State, i: int, key: Key)
    requires Reachable(c, s) && s.watch.epoch <= |s.watch.seen| && s.watch.epochReports <= |s.watch.reports|
    requires SetsRecord(History(c, s), i, key)
    ensures !InGap(CurrentGaps(s), key, History(c, s)[i].sequence.value)
  {
    ReachableInv(c, s);
    var id := History(c, s)[i].sequence.value;
    var first := FirstOf(History(c, s), i, key);
    Tiling(History(c, s), key, first, id);
    assert RecordId(History(c, s), key, id);
  }

  lemma FirstOf(history: seq<Observation>, i: nat, key: Key) returns (first: int)
    requires Numbered(history, i, key)
    ensures IsFirst(history, key, first)
  {
    var n: nat := 0;
    while !Numbered(history, n, key)
      invariant n <= i && forall j :: 0 <= j < n ==> !Numbered(history, j, key)
      decreases i - n
    {
      n := n + 1;
    }
    first := history[n].sequence.value;
  }

  lemma SeenByThisTracker(c: Config, s: State, e: Seen) returns (i: nat)
    requires Inv(c, s) && e in s.watch.seen && (c.resetsOnReconnect ==> e.session == s.socket.sessions)
    ensures s.watch.epoch <= i < |s.watch.seen| && s.watch.seen[i] == e
  {
    i :| 0 <= i < |s.watch.seen| && s.watch.seen[i] == e;
    assert forall j :: 0 <= j < s.watch.epoch ==> s.watch.seen[j] in s.watch.seen[..s.watch.epoch];
  }

  lemma ObservedIsBelowWatermark(history: seq<Observation>, i: nat)
    requires i < |history| && history[i].sequence.Some?
    ensures history[i].Key() in Replay(history).marks
    ensures history[i].sequence.value <= Replay(history).marks[history[i].Key()]
  {
    WatermarkIsMax(history, history[i].Key());
    assert Numbered(history, i, history[i].Key());
  }

  /** An observed number is at or below its tracker's watermark, as long as that tracker is in place. */
  lemma SeenIsBelowWatermark(c: Config, s: State, e: Seen)
    requires Inv(c, s) && e in s.watch.seen && e.trade.sequence.Some?
    requires c.resetsOnReconnect ==> e.session == s.socket.sessions
    ensures var key := ObservationOf(c, e.trade).Key();
            key in s.watch.marks && e.trade.sequence.value <= s.watch.marks[key]
  {
    var i := SeenByThisTracker(c, s, e);
    assert History(c, s)[i - s.watch.epoch] == ObservationOf(c, e.trade);
    ObservedIsBelowWatermark(History(c, s), i - s.watch.epoch);
  }

  lemma UnreportedObservation(c: Config, s: State, t: Trade, e: Seen, r: Report)
    requires Inv(c, s) && e in s.watch.seen && e.trade.sequence.Some?
    requires Gaps.Step(s.watch.marks, ObservationOf(c, t)).1 == Some(r.gap) && r.session == s.socket.sessions
    ensures !Names(c, r, e)
  {
    if Names(c, r, e) {
      SeenIsBelowWatermark(c, s, e);
    }
  }

  lemma UnreportedObserve(c: Config, s: State, e: Seen)
    requires Inv(c, s) && Enabled(c, s, ObserveNext) && e in s.watch.seen && !Reported(c, s, e)
    ensures !Reported(c, Apply(c, s, ObserveNext), e)
  {
    var t := s.socket.phase.frame[0];
    var w' := Observed(c, s.watch, t, s.socket.sessions);
    if w'.reports != s.watch.reports && e.trade.sequence.Some? {
      var r := w'.reports[|s.watch.reports|];
      UnreportedObservation(c, s, t, e, r);
      assert w'.reports == s.watch.reports + [r];
    }
  }

  lemma UnreportedStep(c: Config, s: State, step: Step, e: Seen)
    requires Inv(c, s) && Enabled(c, s, step) && e in s.watch.seen && !Reported(c, s, e)
    ensures e in Apply(c, s, step).watch.seen && !Reported(c, Apply(c, s, step), e)
  {
    if step.ObserveNext? {
      UnreportedObserve(c, s, e);
    } else {
      assert Apply(c, s, step).watch.reports == s.watch.reports;
    }
  }

  /** Silence is for good: no report made later, over any continuation, names an observed trade that no report
      names now. */
  lemma {:induction false} SilenceIsFinal(c: Config, s: State, steps: seq<Step>, e: Seen)
    requires Inv(c, s) && IsRun(c, s, steps) && e in s.watch.seen && !Reported(c, s, e)
    ensures !Reported(c, Exec(c, s, steps), e)
    decreases |steps|
  {
    if steps != [] {
      UnreportedStep(c, s, steps[0], e);
      StepKeepsInv(c, s, steps[0]);
      SilenceIsFinal(c, Apply(c, s, steps[0]), steps[1..], e);
    }
  }

  /** For a persistent venue, over every continuation, a report names an observed trade exactly when its number
      is not below the key's first one and never moved the watermark: an earlier gap already held it. Any other
      observed trade is never asked for again, wherever it went. */
  lemma ReportedExactlyWhen(c: Config, s: State, steps: seq<Step>, i: nat, key: Key, first: int)
    requires Reachable(c, s) && !c.resetsOnReconnect && IsRun(c, s, steps)
    requires Numbered(Observations(c, s.watch.seen), i, key) && IsFirst(Observations(c, s.watch.seen), key, first)
    ensures var id := Observations(c, s.watch.seen)[i].sequence.value;
            Reported(c, Exec(c, s, steps), s.watch.seen[i])
            <==> first <= id && !RecordId(Observations(c, s.watch.seen), key, id)
  {
    ReachableInv(c, s);
    assert s.watch.seen[0..] == s.watch.seen && s.watch.reports[0..] == s.watch.reports;
    var history, e := Observations(c, s.watch.seen), s.watch.seen[i];
    var id := history[i].sequence.value;
    Tiling(history, key, first, id);
    ObservedIsBelowWatermark(history, i);
    NamedIsInAGap(c, s, e, key, id);
    if Reported(c, s, e) {
      ReportsStay(c, s, steps, e);
    } else {
      SilenceIsFinal(c, s, steps, e);
    }
  }

  /** Being named by a report is having one's number in a gap. */
  lemma NamedIsInAGap(c: Config, s: State, e: Seen, key: Key, id: int)
    requires !c.resetsOnReconnect && ObservationOf(c, e.trade) == Observation(key.0, key.1, Some(id))
    ensures Reported(c, s, e) <==> InGap(GapsIn(s.watch.reports), key, id)
  {
    var reports := s.watch.reports;
    if Reported(c, s, e) {
      var r :| r in reports && Names(c, r, e);
      AReportIsAGap(reports, r);
    }
    if InGap(GapsIn(reports), key, id) {
      var g :| g in GapsIn(reports) && g.Key() == key && g.Contains(id);
      var i :| 0 <= i < |reports| && reports[i].gap == g;
      assert Names(c, reports[i], e);
    }
  }

  lemma {:induction false} ReportsStay(c: Config, s: State, steps: seq<Step>, e: Seen)
    requires IsRun(c, s, steps) && Reported(c, s, e)
    ensures Reported(c, Exec(c, s, steps), e)
    decreases |steps|
  {
    if steps != [] {
      var s' := Apply(c, s, steps[0]);
      ReportsGrow(c, s, steps[0]);
      var r :| r in s.watch.reports && Names(c, r, e);
      assert r in s'.watch.reports;
      ReportsStay(c, s', steps[1..], e);
    }
  }

  lemma ReportsGrow(c: Config, s: State, step: Step)
    requires Enabled(c, s, step)
    ensures s.watch.reports <= Apply(c, s, step).watch.reports
  {
  }

  /** So a trade whose number moved a persistent venue's watermark is never named by a report, and once lost it
      is not asked for. */
  lemma RecordsStayUnreported(c: Config, s: State, steps: seq<Step>, i: nat, key: Key)
    requires Reachable(c, s) && !c.resetsOnReconnect && IsRun(c, s, steps)
    requires SetsRecord(Observations(c, s.watch.seen), i, key)
    ensures !Reported(c, Exec(c, s, steps), s.watch.seen[i])
  {
    var first := FirstOf(Observations(c, s.watch.seen), i, key);
    ReportedExactlyWhen(c, s, steps, i, key, first);
  }

  lemma AReportIsAGap(reports: seq<Report>, r: Report)
    requires r in reports
    ensures r.gap in GapsIn(reports)
  {
    var i :| 0 <= i < |reports| && reports[i] == r;
    assert GapsIn(reports)[i] == r.gap;
  }

  // Losses that happen. The drain task starts, its sink raises on the first trade and it dies; the queue of
  // one fills, the pump blocks, and the session's lifetime runs out.

  const BINANCE := Config(false, None, 1)

  const COINBASE := Config(true, Some("*"), 1)

  /** A connector that declares neither attribute: numbered per symbol, from the start with each connection. */
  const DEFAULT := Config(true, None, 1)

  /** The tracker after three trades of a session. */
  function Watched(c: Config, w: Watch, session: nat, t0: Trade, t1: Trade, t2: Trade): Watch
  {
    Observed(c, Observed(c, Observed(c, w, t0, session), t1, session), t2, session)
  }

  /** The first session is pumping and drain waits. */
  lemma FirstSession(c: Config) returns (s: State)
    ensures Reachable(c, s)
    ensures s == START.(socket := START.socket.(phase := Pumping([], None), hasConnected := true, sessions := 1),
                        pipe := START.pipe.(drain := Waiting))
  {
    assert IsRun(c, START, []) && Exec(c, START, []) == START;
    s := After(c, START, LoopCheck);
    s := After(c, s, DrainStart(true));
    s := After(c, s, Dial(true));
    s := After(c, s, Subscribe(true));
  }

  /** A frame of one trade, observed and put. */
  lemma OneTradeFrame(c: Config, s: State, t: Trade) returns (s': State)
    requires Reachable(c, s) && s.socket.phase == Pumping([], None) && t.source.Stream? && Room(c, s)
    ensures Reachable(c, s')
    ensures s'.socket == PumpPut(Arrived(s.socket, [t]), t, [])
    ensures s'.watch == Observed(c, s.watch, t, s.socket.sessions) && s'.repairs == Spawned(c, s.watch, t, s.repairs)
    ensures s'.pipe == Accept(s.pipe, t) && s'.stop == s.stop
  {
    s' := After(c, s, Frame([t]));
    assert s'.socket.phase.frame[1..] == [];
    s' := After(c, s', ObserveNext);
  }

  /** One trade is put, and drain's sink raises on it. */
  lemma AfterDrainDied(c: Config, s: State, t: Trade) returns (s': State)
    requires Reachable(c, s) && s.socket.phase == Pumping([], None) && t.source.Stream? && c.maxsize == 1
    requires s.pipe.drain.Waiting? && s.pipe.queue == []
    ensures Reachable(c, s') && s'.socket == PumpPut(Arrived(s.socket, [t]), t, [])
    ensures s'.watch == Observed(c, s.watch, t, s.socket.sessions)
    ensures s'.pipe == Pipe([], Dead([]), s.pipe.sinkOps + [Produce(t)] + [Poll], s.pipe.accepted + [t])
  {
    s' := OneTradeFrame(c, s, t);
    assert s'.pipe.queue == [t];
    s' := After(c, s', DrainTake(PollRaised, true));
    assert [t][1..] == [];
  }

  /** A frame of two trades of which the queue takes only the first. */
  lemma BlockedFrame(c: Config, s: State, t1: Trade, t2: Trade) returns (s': State)
    requires Reachable(c, s) && s.socket.phase == Pumping([], None) && t1.source.Stream? && t2.source.Stream?
    requires c.maxsize == 1 && s.pipe.queue == []
    ensures Reachable(c, s') && s'.socket.phase == Pumping([], Some(t2))
    ensures s'.socket.sessions == s.socket.sessions && s'.socket.fates.lost == s.socket.fates.lost
    ensures s'.watch == Observed(c, Observed(c, s.watch, t1, s.socket.sessions), t2, s.socket.sessions)
    ensures s'.pipe.accepted == s.pipe.accepted + [t1]
  {
    s' := After(c, s, Frame([t1, t2]));
    assert s'.socket.phase.frame[1..] == [t2];
    s' := After(c, s', ObserveNext);
    assert s'.pipe.queue == [t1] && s'.socket.phase == Pumping([t2], None) && [t2][1..] == [];
    s' := After(c, s', ObserveNext);
  }

  /** From there to the cancelled put of the third trade. */
  lemma AfterCancel(c: Config, s: State, t0: Trade, t1: Trade, t2: Trade) returns (s': State)
    requires Reachable(c, s) && s.socket.phase == Pumping([], None) && c.maxsize == 1
    requires s.pipe.drain.Waiting? && s.pipe.queue == [] && s.socket.fates.lost == []
    requires t0.source.Stream? && t1.source.Stream? && t2.source.Stream?
    ensures Reachable(c, s') && s'.watch == Watched(c, s.watch, s.socket.sessions, t0, t1, t2)
    ensures s'.pipe.accepted == s.pipe.accepted + [t0] + [t1]
    ensures s'.socket.fates.lost == [Seen(t2, s.socket.sessions)]
  {
    s' := AfterDrainDied(c, s, t0);
    s' := BlockedFrame(c, s', t1, t2);
    var entry := Seen(t2, s.socket.sessions);
    assert HeldUp(s'.socket) == [entry];
    s' := After(c, s', CancelPump(true));
    assert [] + [entry] == [entry];
  }

  function BinanceTrade(id: int): Trade { Trade("binance", "BTCUSDT", Some(id), Stream, "") }

  function CoinbaseTrade(payload: string, sequence: Option<int>): Trade
  {
    Trade("coinbase", "BTC-USD", sequence, Stream, payload)
  }

  /** The promise does break, in four ways: a Binance trade in the cancelled put; a Coinbase trade whose number
      the enqueued trade of the same frame carries; a trade without a number; and, where numbers start over with
      a connection, a trade whose number an earlier session's trade was enqueued under. In each the trade was
      received and observed, and nothing will ever ask for it. */
  lemma CancellationCanLoseSilently() returns (numbered: State, shared: State, unnumbered: State, restarted: State)
    ensures Reachable(BINANCE, numbered) && !NoSilentLoss(BINANCE, numbered)
    ensures Reachable(COINBASE, shared) && !NoSilentLoss(COINBASE, shared)
            && HasStreamId(COINBASE, shared.pipe.accepted, ("coinbase", "*"), 5)
            && shared.socket.fates.lost == [Seen(CoinbaseTrade("second", Some(5)), 1)]
    ensures Reachable(COINBASE, unnumbered) && !NoSilentLoss(COINBASE, unnumbered)
            && unnumbered.socket.fates.lost == [Seen(CoinbaseTrade("second", None), 1)]
    ensures Reachable(DEFAULT, restarted) && !NoSilentLoss(DEFAULT, restarted)
            && HasId(restarted.pipe.accepted, ("other", "BTC"), 3)
            && restarted.socket.fates.lost == [Seen(OtherTrade("lost", 3), 2)]
  {
    numbered := FirstSession(BINANCE);
    numbered := AfterCancel(BINANCE, numbered, BinanceTrade(1), BinanceTrade(2), BinanceTrade(3));
    Untraced(BINANCE, numbered, Seen(BinanceTrade(3), 1));
    shared := SharedNumber(Some(5));
    unnumbered := SharedNumber(None);
    restarted := RestartedNumber();
  }

  /** A Coinbase frame of two trades, of which the second is lost; `sequence` is the number it came with. */
  lemma SharedNumber(sequence: Option<int>) returns (s: State)
    requires sequence.None? || sequence == Some(5)
    ensures Reachable(COINBASE, s) && !NoSilentLoss(COINBASE, s)
    ensures HasStreamId(COINBASE, s.pipe.accepted, ("coinbase", "*"), 5)
    ensures s.socket.fates.lost == [Seen(CoinbaseTrade("second", sequence), 1)]
  {
    var before, first, second := CoinbaseTrade("before", Some(4)), CoinbaseTrade("first", Some(5)), CoinbaseTrade("second", sequence);
    s := FirstSession(COINBASE);
    s := AfterCancel(COINBASE, s, before, first, second);
    assert first in s.pipe.accepted;
    Untraced(COINBASE, s, Seen(second, 1));
  }

  function OtherTrade(payload: string, id: int): Trade { Trade("other", "BTC", Some(id), Stream, payload) }

  /** A second session, after a first one that enqueued and published one trade. */
  lemma SecondSession(c: Config, t: Trade) returns (s: State)
    requires c.maxsize == 1 && c.resetsOnReconnect && t.source.Stream?
    ensures Reachable(c, s) && s.socket.phase == Pumping([], None) && s.socket.sessions == 2 && s.socket.fates.lost == []
    ensures s.watch.marks == map[] && s.watch.reports == Observed(c, START.watch, t, 1).reports
    ensures s.pipe.drain.Waiting? && s.pipe.queue == [] && s.pipe.accepted == [t]
  {
    s := FirstSession(c);
    s := OneTradeFrame(c, s, t);
    assert s.pipe == Pipe([t], Waiting, [], [t]);
    s := OneTradePublished(c, s, t);
    s := After(c, s, SocketClosed(true));
    s := After(c, s, LoopCheck);
    s := After(c, s, Dial(true));
    s := After(c, s, Subscribe(true));
  }

  lemma RestartedNumber() returns (s: State)
    ensures Reachable(DEFAULT, s) && !NoSilentLoss(DEFAULT, s)
    ensures HasId(s.pipe.accepted, ("other", "BTC"), 3) && s.socket.fates.lost == [Seen(OtherTrade("lost", 3), 2)]
  {
    var earlier := OtherTrade("first session", 3);
    s := SecondSession(DEFAULT, earlier);
    s := AfterCancel(DEFAULT, s, OtherTrade("a", 1), OtherTrade("b", 2), OtherTrade("lost", 3));
    assert earlier in s.pipe.accepted;
    Untraced(DEFAULT, s, Seen(OtherTrade("lost", 3), 2));
  }

  lemma Untraced(c: Config, s: State, e: Seen)
    requires Reachable(c, s) && s.socket.fates.lost == [e] && s.watch.reports == []
    requires !StillAhead(c, s, e) && !EnqueuedOtherwise(c, s, e)
    ensures !NoSilentLoss(c, s)
  {
    NoSilentLossExactlyWhen(c, s);
    assert e in s.socket.fates.lost + s.socket.fates.unread;
    assert !Traceable(c, s, e);
  }

  lemma After(c: Config, s: State, step: Step) returns (s': State)
    requires Reachable(c, s) && Enabled(c, s, step)
    ensures s' == Apply(c, s, step) && Reachable(c, s')
  {
    ReachStep(c, s, step);
    s' := Apply(c, s, step);
  }

  // From the queue to the sink.

  /** Conservation: at every reachable state the accepted trades are, in FIFO order, those produced, then
      the one drain died holding, then those still queued. */
  lemma PipelineConserves(c: Config, s: State)
    requires Reachable(c, s)
    ensures s.pipe.accepted == Produced(s.pipe.sinkOps) + Hand(s.pipe.drain) + s.pipe.queue
    ensures |Hand(s.pipe.drain)| <= 1
    ensures c.maxsize > 0 ==> |s.pipe.queue| <= c.maxsize
  {
    ReachableInv(c, s);
  }

  lemma ExitSeesEmptyQueue(p: Pipe, stop: bool, flushOk: bool)
    requires p.accepted == Produced(p.sinkOps) + p.queue && LoopOrExit(p, stop, flushOk).drain.Returned? && !p.drain.Returned?
    ensures Exited(LoopOrExit(p, stop, flushOk)) && stop
  {
    ProducedSnoc(p.sinkOps, Flush);
  }

  predicate Exited(p: Pipe)
  {
    p.queue == [] && p.accepted == Produced(p.sinkOps) && p.sinkOps != [] && p.sinkOps[|p.sinkOps| - 1] == Flush
  }

  lemma IdleExit(c: Config, p: Pipe, stop: bool, pollOk: bool, flushOk: bool)
    requires PipeInv(c, p, stop) && p.drain.Waiting? && Idled(p, stop, pollOk, flushOk).drain.Returned?
    ensures Exited(Idled(p, stop, pollOk, flushOk)) && stop
  {
    ProducedSnoc(p.sinkOps, Poll);
    ExitSeesEmptyQueue(p.(sinkOps := p.sinkOps + [Poll]), stop, flushOk);
  }

  lemma TakeExit(c: Config, p: Pipe, stop: bool, outcome: TakeOutcome, flushOk: bool)
    requires PipeInv(c, p, stop) && p.drain.Waiting? && p.queue != [] && Taken(p, stop, outcome, flushOk).drain.Returned?
    ensures Exited(Taken(p, stop, outcome, flushOk)) && stop
  {
    var t := p.queue[0];
    ProducedAndPolled(p.sinkOps, t);
    assert p.queue == [t] + p.queue[1..];
    AppendAssociates(Produced(p.sinkOps), [t], p.queue[1..]);
    ExitSeesEmptyQueue(p.(queue := p.queue[1..], sinkOps := p.sinkOps + [Produce(t)] + [Poll]), stop, flushOk);
  }

  /** Steps drain can take right before it returns leave an empty queue and a flush behind them. */
  lemma ReturnSeesEmptyQueue(c: Config, s: State, step: Step)
    requires Inv(c, s) && Enabled(c, s, step) && !s.pipe.drain.Returned? && Apply(c, s, step).pipe.drain.Returned?
    ensures Exited(Apply(c, s, step).pipe) && s.stop
  {
    if step.DrainStart? {
      ExitSeesEmptyQueue(s.pipe, s.stop, step.flushOk);
    } else if step.DrainIdle? {
      IdleExit(c, s.pipe, s.stop, step.pollOk, step.flushOk);
    } else {
      TakeExit(c, s.pipe, s.stop, step.outcome, step.flushOk);
    }
  }

  /** After drain has returned, the sink is not called again and the queue holds exactly the puts that
      completed since: whatever was accepted before was produced and then flushed. */
  lemma {:induction false} OnlyLatePutsRemain(c: Config, s: State, steps: seq<Step>)
    requires IsRun(c, s, steps) && s.pipe.drain.Returned? && s.pipe.queue == []
    ensures var late := Exec(c, s, steps).pipe;
            && late.drain.Returned? && late.sinkOps == s.pipe.sinkOps
            && s.pipe.accepted <= late.accepted && late.queue == late.accepted[|s.pipe.accepted|..]
  {
    LatePuts(c, s, steps, |s.pipe.accepted|);
  }

  lemma {:induction false} LatePuts(c: Config, s: State, steps: seq<Step>, n: nat)
    requires IsRun(c, s, steps) && s.pipe.drain.Returned?
    requires n <= |s.pipe.accepted| && s.pipe.queue == s.pipe.accepted[n..]
    ensures var late := Exec(c, s, steps).pipe;
            && late.drain.Returned? && late.sinkOps == s.pipe.sinkOps
            && s.pipe.accepted <= late.accepted && late.queue == late.accepted[n..]
    decreases |steps|
  {
    if steps != [] {
      var s' := Apply(c, s, steps[0]);
      AfterReturnOnlyAccepts(c, s, steps[0]);
      LatePuts(c, s', steps[1..], n);
    }
  }

  lemma AfterReturnOnlyAccepts(c: Config, s: State, step: Step)
    requires Enabled(c, s, step) && s.pipe.drain.Returned?
    ensures var p := Apply(c, s, step).pipe;
            p == s.pipe || exists t :: p == Accept(s.pipe, t)
  {
  }

  /** Some coroutine that can still complete a put is alive. */
  predicate PutterAlive(s: State)
  {
    s.repairs.tasks != map[] || s.socket.phase.Dialing? || s.socket.phase.Subscribing? || s.socket.phase.Pumping?
  }

  /** A shutdown leaves nothing behind in the queue, whatever happens next, exactly when at the moment
      drain returned no repair task was in flight and the socket was past its last session. */
  lemma DrainExitIsSafeExactlyWhen(c: Config, s: State)
    requires Inv(c, s) && s.pipe.drain.Returned? && s.pipe.queue == []
    ensures (forall steps :: IsRun(c, s, steps) ==> Exec(c, s, steps).pipe.queue == []) <==> !PutterAlive(s)
  {
    if PutterAlive(s) {
      var steps := LatePutRun(c, s);
      assert Exec(c, s, steps).pipe.queue != [];
    } else {
      forall steps | IsRun(c, s, steps) ensures Exec(c, s, steps).pipe.queue == [] {
        QuietStaysQuiet(c, s, steps);
      }
    }
  }

  /** The claim that awaiting the repairs first lets drain see their trades does fail: a gap's repair is being
      fetched when stop is set, drain times out on an empty queue and returns, and the repaired trade is then
      put into a queue nobody reads. */
  lemma DrainCanStrandARepair() returns (exit: State, late: State)
    ensures Reachable(BINANCE, exit) && exit.pipe.drain.Returned? && exit.pipe.queue == [] && PutterAlive(exit)
    ensures Reachable(BINANCE, late) && late.pipe.drain.Returned? && late.socket.phase.Ended? && late.repairs.tasks == map[]
    ensures late.pipe.queue == [BinanceTrade(2).(source := RestRepair)]
  {
    exit := AfterGap(3);
    exit := After(BINANCE, exit, SetStop);
    exit := After(BINANCE, exit, CancelPump(true));
    exit := After(BINANCE, exit, LoopCheck);
    exit := After(BINANCE, exit, DrainIdle(true, true));
    var repaired := BinanceTrade(2).(source := RestRepair);
    late := After(BINANCE, exit, RepairReply(0, [repaired]));
    late := After(BINANCE, late, RepairPut(0));
    assert late.repairs.tasks == map[];
  }

  /** Trade 1 and then trade `next` were published, and the repair of the gap between them is being fetched. */
  lemma AfterGap(next: int) returns (s: State)
    requires next >= 3
    ensures Reachable(BINANCE, s) && !s.stop && s.socket.phase == Pumping([], None) && s.pipe.queue == []
    ensures s.pipe.drain.Waiting? && s.repairs == Repairs(map[0 := Fetching], {}) && |s.watch.reports| == 1
  {
    var t1, t2 := BinanceTrade(1), BinanceTrade(next);
    s := FirstSession(BINANCE);
    s := OneTradeFrame(BINANCE, s, t1);
    assert s.watch.marks == map[("binance", "BTCUSDT") := 1] && s.watch.reports == [] && s.repairs == START.repairs;
    s := OneTradePublished(BINANCE, s, t1);
    s := OneTradeFrame(BINANCE, s, t2);
    assert s.repairs.tasks == map[0 := Fetching];
    s := OneTradePublished(BINANCE, s, t2);
  }

  /** Drain publishes the one trade in the queue and waits again. */
  lemma OneTradePublished(c: Config, s: State, t: Trade) returns (s': State)
    requires Reachable(c, s) && s.pipe.drain.Waiting? && s.pipe.queue == [t] && !s.stop
    ensures Reachable(c, s') && s'.pipe.queue == [] && s'.pipe.drain.Waiting?
    ensures s'.socket == s.socket && s'.watch == s.watch && s'.repairs == s.repairs && !s'.stop
    ensures s'.pipe.accepted == s.pipe.accepted
  {
    s' := After(c, s, DrainTake(Published, true));
  }

  lemma {:induction false} QuietStaysQuiet(c: Config, s: State, steps: seq<Step>)
    requires IsRun(c, s, steps) && s.stop && s.pipe.drain.Returned? && s.pipe.queue == [] && !PutterAlive(s)
    ensures Exec(c, s, steps).pipe.queue == []
    decreases |steps|
  {
    if steps != [] {
      QuietStaysQuiet(c, Apply(c, s, steps[0]), steps[1..]);
    }
  }

  lemma Cons(c: Config, s: State, step: Step, steps: seq<Step>)
    requires Enabled(c, s, step) && IsRun(c, Apply(c, s, step), steps)
    ensures IsRun(c, s, [step] + steps) && Exec(c, s, [step] + steps) == Exec(c, Apply(c, s, step), steps)
  {
    assert ([step] + steps)[1..] == steps;
  }

  lemma OneStep(c: Config, s: State, step: Step)
    requires Enabled(c, s, step)
    ensures IsRun(c, s, [step]) && Exec(c, s, [step]) == Apply(c, s, step)
  {
    Cons(c, s, step, []);
    assert [step] + [] == [step];
  }

  lemma LatePutRun(c: Config, s: State) returns (steps: seq<Step>)
    requires Inv(c, s) && s.pipe.queue == [] && PutterAlive(s)
    ensures IsRun(c, s, steps) && Exec(c, s, steps).pipe.queue != []
  {
    var late := Trade("binance", "BTCUSDT", Some(1), Stream, "");
    if s.repairs.tasks != map[] {
      var id :| id in s.repairs.tasks;
      if s.repairs.tasks[id].Putting? {
        steps := [RepairPut(id)];
        OneStep(c, s, RepairPut(id));
      } else {
        var reply := RepairReply(id, [late.(source := RestRepair)]);
        var s' := Apply(c, s, reply);
        OneStep(c, s', RepairPut(id));
        Cons(c, s, reply, [RepairPut(id)]);
        steps := [reply] + [RepairPut(id)];
      }
    } else if s.socket.phase.Pumping? {
      steps := LatePumpRun(c, s, late);
    } else if s.socket.phase.Subscribing? {
      steps := LatePumpRun(c, Apply(c, s, Subscribe(true)), late);
      Cons(c, s, Subscribe(true), steps);
      steps := [Subscribe(true)] + steps;
    } else {
      var s' := Apply(c, s, Dial(true));
      steps := LatePumpRun(c, Apply(c, s', Subscribe(true)), late);
      Cons(c, s', Subscribe(true), steps);
      Cons(c, s, Dial(true), [Subscribe(true)] + steps);
      steps := [Dial(true)] + ([Subscribe(true)] + steps);
    }
  }

  lemma LatePumpRun(c: Config, s: State, late: Trade) returns (steps: seq<Step>)
    requires s.pipe.queue == [] && s.socket.phase.Pumping? && late.source.Stream?
    ensures IsRun(c, s, steps) && Exec(c, s, steps).pipe.queue != []
  {
    if s.socket.phase.blocked.Some? {
      OneStep(c, s, UnblockPump);
      steps := [UnblockPump];
    } else if s.socket.phase.frame != [] {
      OneStep(c, s, ObserveNext);
      steps := [ObserveNext];
    } else {
      OneStep(c, Apply(c, s, Frame([late])), ObserveNext);
      Cons(c, s, Frame([late]), [ObserveNext]);
      steps := [Frame([late])] + [ObserveNext];
    }
  }

  // Reconnects.

  /** Over every history of dials, failures and cancellations, the reconnect hook ran exactly once before
      each pumped session after the first. */
  lemma HookRunsOncePerReconnect(c: Config, s: State)
    requires Reachable(c, s)
    ensures s.socket.hooks == if s.socket.sessions == 0 then 0 else s.socket.sessions - 1
    ensures s.socket.phase.Pumping? ==> s.socket.sessions == s.socket.hooks + 1
  {
    ReachableInv(c, s);
  }

  /** The hook runs only on a step that starts a pumped session; a failed dial or subscribe runs nothing. */
  lemma HookOnlyBeforePump(c: Config, s: State, step: Step)
    requires Enabled(c, s, step) && Apply(c, s, step).socket.hooks != s.socket.hooks
    ensures s.socket.phase.Subscribing? && Apply(c, s, step).socket.phase == Pumping([], None)
    ensures Apply(c, s, step).socket.hooks == s.socket.hooks + 1
    ensures Apply(c, s, step).socket.sessions == s.socket.sessions + 1
  {
  }

  /** For a connection-scoped venue no reported gap spans two connections. */
  lemma GapsStayInOneSession(c: Config, s: State, r: Report)
    requires Reachable(c, s) && c.resetsOnReconnect && r in s.watch.reports
    ensures EndsSeen(c, s.watch.seen, r)
  {
    ReachableInv(c, s);
  }

  /** For a venue with persistent ids reconnects are invisible to gap detection: the reports are those of
      one unbroken stream of everything ever observed, so a jump across an outage is always reported, and
      the watermark is the largest id ever observed. */
  lemma ReconnectsHideNothing(c: Config, s: State)
    requires Reachable(c, s) && !c.resetsOnReconnect
    ensures Replay(Observations(c, s.watch.seen)) == Trail(s.watch.marks, GapsIn(s.watch.reports))
    ensures forall key <- s.watch.marks :: IsMax(Observations(c, s.watch.seen), key, s.watch.marks[key])
  {
    ReachableInv(c, s);
    assert s.watch.seen[0..] == s.watch.seen && s.watch.reports[0..] == s.watch.reports;
    forall key | key in s.watch.marks ensures IsMax(Observations(c, s.watch.seen), key, s.watch.marks[key]) {
      WatermarkIsMax(Observations(c, s.watch.seen), key);
    }
  }

  // Repairs.

  /** A trade with this key and id is in the list, from the stream or repaired. */
  ghost predicate HasId(trades: seq<Trade>, key: Key, id: int)
  {
    exists t <- trades :: (t.venue, t.venueSymbol) == key && t.sequence == Some(id)
  }

  ghost predicate InUnrepaired(s: State, key: Key, id: int)
  {
    exists i <- s.repairs.unrepaired :: i < |s.watch.reports|
                                        && s.watch.reports[i].gap.Key() == key && s.watch.reports[i].gap.Contains(id)
  }

  predicate Quiescent(s: State) { s.repairs.tasks == map[] && HeldUp(s.socket) == [] }

  /** At quiescence, for a venue with per-symbol persistent ids, every id from the first observed to the
      watermark has been enqueued, unless it was in a cancelled put or in a gap whose repair failed or came
      back incomplete. */
  lemma QuiescentStreamIsWhole(c: Config, s: State, key: Key, first: int, id: int)
    requires Reachable(c, s) && !c.resetsOnReconnect && c.sequenceSymbol.None? && Quiescent(s)
    requires IsFirst(Observations(c, s.watch.seen), key, first)
    requires key in s.watch.marks && first <= id <= s.watch.marks[key]
    ensures HasId(s.pipe.accepted, key, id) || HasId(TradesOf(s.socket.fates.lost), key, id) || InUnrepaired(s, key, id)
  {
    ReachableInv(c, s);
    assert s.watch.seen[0..] == s.watch.seen && s.watch.reports[0..] == s.watch.reports;
    Accounting(c, s, key, first, id);
    if HasStreamId(c, s.pipe.accepted, key, id) {
      StreamIdIsId(c, s.pipe.accepted, key, id);
    } else if HasStreamId(c, TradesOf(s.socket.fates.lost), key, id) {
      StreamIdIsId(c, TradesOf(s.socket.fates.lost), key, id);
    } else {
      var g :| g in CurrentGaps(s) && g.Key() == key && g.Contains(id);
      var i: nat :| i < |s.watch.reports| && s.watch.reports[i].gap == g;
      assert Settled(g, i, s.repairs, s.pipe.accepted);
      if i !in s.repairs.unrepaired {
        assert Delivered(g, i, s.repairs.tasks, s.pipe.accepted, id);
      }
    }
  }

  lemma StreamIdIsId(c: Config, trades: seq<Trade>, key: Key, id: int)
    requires c.sequenceSymbol.None? && HasStreamId(c, trades, key, id)
    ensures HasId(trades, key, id)
  {
    var t :| t in trades && t.source.Stream? && ObservationOf(c, t) == Observation(key.0, key.1, Some(id));
    assert (t.venue, t.venueSymbol) == key;
  }
}
