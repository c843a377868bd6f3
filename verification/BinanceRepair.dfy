/** Exact-range gap repair over the aggregate-trade endpoint (ingest/connectors/binance.py), and what the
    runtime recovers when that endpoint behaves. */
module BinanceRepair {
  import opened Prelude
  import opened Gaps
  import opened IngestProtocol
  import opened IngestSafety

  const VENUE := "binance"
  const MAX_REPAIR_BATCH := 1000

  /** A row of the response. `id` is None when `a` is missing or not a number, `usable` is false when one of
      the other fields is. */
  datatype Row = Row(id: Option<int>, usable: bool, payload: string)

  datatype Request = Request(symbol: string, fromId: int, limit: int)

  function RequestFor(gap: Gap): Request
  {
    var wanted := if gap.MissingCount() > 1 then gap.MissingCount() else 1;
    Request(gap.venueSymbol, gap.lastSeen + 1, if wanted < MAX_REPAIR_BATCH then wanted else MAX_REPAIR_BATCH)
  }

  function RepairedTrade(gap: Gap, row: Row): Trade
    requires row.id.Some?
  {
    Trade(VENUE, gap.venueSymbol, row.id, RestRepair, row.payload)
  }

  /** Rows that are neither malformed nor already delivered by the stream. */
  predicate Wanted(gap: Gap, row: Row) { row.id.Some? && row.id.value < gap.nextSeen && row.usable }

  function Recovered(gap: Gap, rows: seq<Row>, mapped: bool): (trades: seq<Trade>)
    ensures AllFrom(trades, RestRepair)
  {
    if rows == [] then [] else
      var n := |rows| - 1;
      var before := Recovered(gap, rows[..n], mapped);
      if mapped && Wanted(gap, rows[n]) then before + [RepairedTrade(gap, rows[n])] else before
  }

  /** `mapped` says whether the instrument map knows the symbol; without it every row is discarded. */
  method Repair(gap: Gap, rows: seq<Row>, mapped: bool) returns (trades: seq<Trade>)
    ensures trades == Recovered(gap, rows, mapped)
  {
    trades := [];
    for i := 0 to |rows|
      invariant trades == Recovered(gap, rows[..i], mapped)
    {
      assert rows[..i + 1][..i] == rows[..i];
      var row := rows[i];
      if row.id.None? {
        continue;
      }
      if row.id.value >= gap.nextSeen {
        continue;
      }
      if !row.usable || !mapped {
        continue;
      }
      trades := trades + [RepairedTrade(gap, row)];
    }
    assert rows[..|rows|] == rows;
  }

  /** Rows of the gap, or before it, that are well formed. */
  function GoodFor(gap: Gap): Row -> bool { (row: Row) => row.id.Some? && row.id.value < gap.nextSeen && row.usable }

  /** The trade such a row stands for: of the gap's symbol, under the row's own number, marked as a repair. */
  function TradeFor(gap: Gap): Row -> Trade { (row: Row) => Trade("binance", gap.venueSymbol, row.id, RestRepair, row.payload) }

  /** Whatever the server answers, repair keeps exactly its well-formed rows that come before the gap's upper end,
      in order and with multiplicity: one bad row costs no other. An unknown symbol keeps nothing. */
  lemma {:induction false} RepairKeepsTheGoodRows(gap: Gap, rows: seq<Row>, mapped: bool)
    ensures Recovered(gap, rows, mapped) == if mapped then Map(Filter(rows, GoodFor(gap)), TradeFor(gap)) else []
  {
    if rows != [] {
      var n := |rows| - 1;
      RepairKeepsTheGoodRows(gap, rows[..n], mapped);
      MapSnoc(Filter(rows[..n], GoodFor(gap)), rows[n], TradeFor(gap));
    }
  }

  /** A server that answers with the first `limit` consecutive well-formed rows from `fromId`. */
  ghost predicate Honest(request: Request, rows: seq<Row>)
  {
    && |rows| == request.limit
    && forall i :: 0 <= i < |rows| ==> rows[i].id == Some(request.fromId + i) && rows[i].usable
  }

  /** Against an honest server, repair recovers exactly the first min(missing, 1000) ids of the gap, in
      order and once each. */
  lemma {:induction false} RepairIsExact(gap: Gap, rows: seq<Row>)
    requires gap.MissingCount() >= 1 && Honest(RequestFor(gap), rows)
    ensures var trades := Recovered(gap, rows, true);
            && |trades| == (if gap.MissingCount() < 1000 then gap.MissingCount() else 1000)
            && forall i :: 0 <= i < |trades| ==> trades[i] == RepairedTrade(gap, rows[i]) && trades[i].sequence == Some(gap.lastSeen + 1 + i)
  {
    RecoversPrefix(gap, rows, |rows|);
    assert rows[..|rows|] == rows;
  }

  lemma {:induction false} RecoversPrefix(gap: Gap, rows: seq<Row>, n: nat)
    requires gap.MissingCount() >= 1 && Honest(RequestFor(gap), rows) && n <= |rows|
    ensures |Recovered(gap, rows[..n], true)| == n
    ensures forall i :: 0 <= i < n ==> Recovered(gap, rows[..n], true)[i] == RepairedTrade(gap, rows[i])
  {
    if n > 0 {
      RecoversPrefix(gap, rows, n - 1);
      assert rows[..n][..n - 1] == rows[..n - 1];
      assert Wanted(gap, rows[n - 1]);
    }
  }

  /** One request repairs a gap completely exactly when at most 1000 ids are missing. */
  lemma OneRequestSufficesExactlyWhen(gap: Gap, rows: seq<Row>)
    requires gap.venue == VENUE && gap.MissingCount() >= 1 && Honest(RequestFor(gap), rows)
    ensures Complete(gap, Recovered(gap, rows, true)) <==> gap.MissingCount() <= 1000
  {
    RepairIsExact(gap, rows);
    var trades := Recovered(gap, rows, true);
    if gap.MissingCount() <= MAX_REPAIR_BATCH {
      forall id | gap.lastSeen < id < gap.nextSeen ensures Carries(trades, gap, id) {
        assert trades[id - gap.lastSeen - 1] in trades;
      }
    } else {
      var beyond := gap.lastSeen + 1 + MAX_REPAIR_BATCH;
      assert forall i :: 0 <= i < |trades| ==> trades[i].sequence != Some(beyond);
      assert !Carries(trades, gap, beyond);
    }
  }

  // The runtime against an honest server.

  /** Binance's connector: ids are per symbol and survive reconnects. */
  predicate IsBinance(c: Config) { !c.resetsOnReconnect && c.sequenceSymbol.None? }

  ghost predicate HonestReply(gap: Gap, reply: seq<Trade>)
  {
    exists rows :: Honest(RequestFor(gap), rows) && reply == Recovered(gap, rows, true)
  }

  /** A step of a run in which the stream carries Binance trades, no repair raises and every reply is honest. */
  ghost predicate Smooth(s: State, step: Step)
  {
    match step
    case Frame(trades) => forall t <- trades :: t.venue == VENUE
    case RepairFail(_) => false
    case RepairReply(id, reply) => id < |s.watch.reports| ==> HonestReply(s.watch.reports[id].gap, reply)
    case _ => true
  }

  ghost predicate SmoothRun(c: Config, s: State, steps: seq<Step>)
    requires IsRun(c, s, steps)
    decreases |steps|
  {
    steps == [] || (Smooth(s, steps[0]) && SmoothRun(c, Apply(c, s, steps[0]), steps[1..]))
  }

  predicate TooLong(r: Report) { r.gap.MissingCount() > 1000 }

  /** Under honest replies the unrepaired reports are exactly the answered ones that were too long. */
  ghost predicate SmoothInv(s: State)
  {
    && (s.socket.phase.Pumping? ==> forall t <- s.socket.phase.frame :: t.venue == VENUE)
    && (forall r <- s.watch.reports :: r.gap.venue == VENUE && r.gap.MissingCount() >= 1)
    && (forall i <- s.repairs.tasks :: i < |s.watch.reports| && (s.repairs.tasks[i].Fetching? ==> i !in s.repairs.unrepaired))
    && (forall i: nat :: i < |s.watch.reports| ==>
          (i in s.repairs.unrepaired <==>
           TooLong(s.watch.reports[i]) && !(i in s.repairs.tasks && s.repairs.tasks[i].Fetching?)))
    && (forall i <- s.repairs.unrepaired :: i < |s.watch.reports|)
  }

  lemma SmoothReply(s: State, id: nat, reply: seq<Trade>)
    requires SmoothInv(s) && id in s.repairs.tasks && HonestReply(s.watch.reports[id].gap, reply)
    ensures Complete(s.watch.reports[id].gap, reply) <==> !TooLong(s.watch.reports[id])
  {
    var gap := s.watch.reports[id].gap;
    assert s.watch.reports[id] in s.watch.reports;
    var rows :| Honest(RequestFor(gap), rows) && reply == Recovered(gap, rows, true);
    OneRequestSufficesExactlyWhen(gap, rows);
  }

  lemma ObserveKeepsSmooth(c: Config, s: State)
    requires SmoothInv(s) && Enabled(c, s, ObserveNext)
    ensures SmoothInv(Apply(c, s, ObserveNext))
  {
    assert s.socket.phase.frame[0] in s.socket.phase.frame;
    var s' := Apply(c, s, ObserveNext);
    if |s'.watch.reports| > |s.watch.reports| {
      var n := |s.watch.reports|;
      assert s'.watch.reports == s.watch.reports + [s'.watch.reports[n]];
    } else {
      assert s'.watch.reports == s.watch.reports && s'.repairs == s.repairs;
    }
  }

  lemma ReplyKeepsSmooth(c: Config, s: State, id: nat, reply: seq<Trade>)
    requires SmoothInv(s) && Enabled(c, s, RepairReply(id, reply)) && Smooth(s, RepairReply(id, reply))
    ensures SmoothInv(Apply(c, s, RepairReply(id, reply)))
  {
    SmoothReply(s, id, reply);
  }

  lemma KeepsSmooth(c: Config, s: State, step: Step)
    requires SmoothInv(s) && Enabled(c, s, step) && Smooth(s, step)
    ensures SmoothInv(Apply(c, s, step))
  {
    if step.ObserveNext? {
      ObserveKeepsSmooth(c, s);
    } else if step.RepairReply? {
      ReplyKeepsSmooth(c, s, step.id, step.reply);
    }
  }

  lemma {:induction false} SmoothRunKeeps(c: Config, s: State, steps: seq<Step>)
    requires IsRun(c, s, steps) && SmoothRun(c, s, steps) && SmoothInv(s)
    ensures SmoothInv(Exec(c, s, steps))
    decreases |steps|
  {
    if steps != [] {
      KeepsSmooth(c, s, steps[0]);
      SmoothRunKeeps(c, Apply(c, s, steps[0]), steps[1..]);
    }
  }

  /** The central promise. In every run with honest replies and no failed repair, in which no put was
      cancelled and no gap exceeds one request, at quiescence every id from the first observed to the
      watermark has been enqueued. */
  lemma NothingIsMissing(c: Config, steps: seq<Step>, key: Key, first: int, id: int)
    requires IsBinance(c) && IsRun(c, START, steps) && SmoothRun(c, START, steps)
    requires var s := Exec(c, START, steps);
             && Quiescent(s) && s.socket.fates.lost == []
             && (forall r <- s.watch.reports :: !TooLong(r))
             && IsFirst(Observations(c, s.watch.seen), key, first)
             && key in s.watch.marks && first <= id <= s.watch.marks[key]
    ensures HasId(Exec(c, START, steps).pipe.accepted, key, id)
  {
    var s := Exec(c, START, steps);
    SmoothRunKeeps(c, START, steps);
    QuiescentStreamIsWhole(c, s, key, first, id);
  }
}
