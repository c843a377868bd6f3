/** The ingest runtime as an interleaved step system (ingest/runner.py with ws.py, queue.py and gaps.py).

    One `Step` is what one coroutine does between two suspension points: the reconnect loop and its pump,
    the repair tasks, the drain task, and the stop event. Every interleaving of the coroutines is a
    sequence of enabled steps. Fields under "history" are not in the program: they record what happened. */
module IngestProtocol {
  import opened Prelude
  import opened Gaps
  import opened TopicQueue

  datatype Source = Stream | RestRepair

  datatype Trade = Trade(venue: string, venueSymbol: string, sequence: Option<int>, source: Source, payload: string)

  /** What the runner asks of its connector, and the bound of its BLOCK queue. */
  datatype Config = Config(resetsOnReconnect: bool, sequenceSymbol: Option<string>, maxsize: int)

  function ObservationOf(c: Config, t: Trade): Observation
  {
    Observation(t.venue, if c.sequenceSymbol.Some? then c.sequenceSymbol.value else t.venueSymbol, t.sequence)
  }

  datatype Phase =
    | AtLoop
    | Dialing
    | Subscribing
    | Pumping(frame: seq<Trade>, blocked: Option<Trade>)  // `blocked`: observed, waiting inside queue.put
    | Sleeping
    | Ended

  datatype RepairTask = Fetching | Putting(rest: seq<Trade>)

  datatype Drain = NotStarted | Waiting | Returned | Dead(hand: seq<Trade>)

  datatype SinkOp = Produce(trade: Trade) | Poll | Flush

  datatype Seen = Seen(trade: Trade, session: nat)

  datatype Report = Report(gap: Gap, session: nat)

  /** What became of the trades the stream delivered: all that were `received`, those whose `put` completed,
      those whose put was cancelled with the pump (`lost`), and the rest of a cancelled pump's frame, which
      was never observed (`unread`). */
  datatype Fates = Fates(received: seq<Seen>, put: seq<Seen>, lost: seq<Seen>, unread: seq<Seen>)

  /** ResilientWebSocket and its pump. History: `sessions` counts the sessions that reached the pump, `hooks`
      the calls of the reconnect hook, and `cancelled` the sessions ended by cancelling the pump. */
  datatype Socket = Socket(phase: Phase, hasConnected: bool,
                           sessions: nat, hooks: nat, cancelled: nat, fates: Fates)

  /** The tracker: its watermarks, every observed trade and every report so far, and how many of each
      there were when the tracker was last replaced. */
  datatype Watch = Watch(marks: Watermarks, seen: seq<Seen>, epoch: nat, reports: seq<Report>, epochReports: nat)

  /** The queue and the drain task. `accepted` lists the completed queue.put calls and `sinkOps` the calls
      made on the sink. */
  datatype Pipe = Pipe(queue: seq<Trade>, drain: Drain, sinkOps: seq<SinkOp>, accepted: seq<Trade>)

  /** Repair tasks, each named by the index of the report that started it, and the reports whose repair
      failed or came back without one of the missing ids. */
  datatype Repairs = Repairs(tasks: map<nat, RepairTask>, unrepaired: set<nat>)

  datatype State = State(stop: bool, socket: Socket, watch: Watch, pipe: Pipe, repairs: Repairs)

  const START := State(false, Socket(AtLoop, false, 0, 0, 0, Fates([], [], [], [])), Watch(map[], [], 0, [], 0),
                       Pipe([], NotStarted, [], []), Repairs(map[], {}))

  datatype TakeOutcome = ProduceRaised | PollRaised | Published

  datatype Step =
    | SetStop
    | LoopCheck
    | Dial(ok: bool)
    | Subscribe(ok: bool)
    | Frame(trades: seq<Trade>)
    | ObserveNext
    | UnblockPump
    | SocketClosed(closeOk: bool)
    | PumpRaise
    | CancelPump(closeOk: bool)
    | WakeUp
    | RepairReply(id: nat, reply: seq<Trade>)
    | RepairFail(id: nat)
    | RepairPut(id: nat)
    | DrainStart(flushOk: bool)
    | DrainIdle(pollOk: bool, flushOk: bool)
    | DrainTake(outcome: TakeOutcome, flushOk: bool)

  predicate AllFrom(trades: seq<Trade>, source: Source) { forall t <- trades :: t.source == source }

  predicate AllStream(entries: seq<Seen>) { forall e <- entries :: e.trade.source.Stream? }

  predicate Room(c: Config, s: State) { HasRoom(|s.pipe.queue|, c.maxsize) }

  predicate Enabled(c: Config, s: State, step: Step)
  {
    var phase, tasks := s.socket.phase, s.repairs.tasks;
    match step
    case SetStop => true
    case LoopCheck => phase.AtLoop?
    case Dial(_) => phase.Dialing?
    case Subscribe(_) => phase.Subscribing?
    case Frame(trades) => phase == Pumping([], None) && AllFrom(trades, Stream)
    case ObserveNext => phase.Pumping? && phase.blocked.None? && phase.frame != []
    case UnblockPump => phase.Pumping? && phase.blocked.Some? && Room(c, s)
    case SocketClosed(_) => phase == Pumping([], None)
    case PumpRaise => phase == Pumping([], None)
    case CancelPump(_) => phase.Pumping? && (phase.blocked.Some? || phase.frame == [])
    case WakeUp => phase.Sleeping?
    case RepairReply(id, reply) => id in tasks && tasks[id].Fetching? && AllFrom(reply, RestRepair)
    case RepairFail(id) => id in tasks && tasks[id].Fetching?
    case RepairPut(id) => id in tasks && tasks[id].Putting? && tasks[id].rest != [] && Room(c, s)
    case DrainStart(_) => s.pipe.drain.NotStarted?
    case DrainIdle(_, _) => s.pipe.drain.Waiting?
    case DrainTake(_, _) => s.pipe.drain.Waiting? && s.pipe.queue != []
  }

  /** A completed queue.put. */
  function Accept(p: Pipe, t: Trade): Pipe { p.(queue := p.queue + [t], accepted := p.accepted + [t]) }

  /** How ResilientWebSocket.run leaves a session that raised. */
  function Failed(k: Socket, stop: bool): Socket { k.(phase := if stop then Ended else Sleeping) }

  function Over(k: Socket, stop: bool, closeOk: bool): Socket
  {
    if closeOk then k.(phase := AtLoop) else Failed(k, stop)
  }

  /** Trades as received in a session. */
  function Tagged(trades: seq<Trade>, session: nat): seq<Seen>
  {
    seq(|trades|, i requires 0 <= i < |trades| => Seen(trades[i], session))
  }

  function Arrived(k: Socket, trades: seq<Trade>): Socket
  {
    k.(phase := Pumping(trades, None), fates := k.fates.(received := k.fates.received + Tagged(trades, k.sessions)))
  }

  /** The pump's put of `t` completed. */
  function PumpPut(k: Socket, t: Trade, rest: seq<Trade>): Socket
  {
    k.(phase := Pumping(rest, None), fates := k.fates.(put := k.fates.put + [Seen(t, k.sessions)]))
  }

  /** The blocked put, and the rest of the frame behind it, go with the pump. */
  function Cancelled(k: Socket): Socket
    requires k.phase.Pumping?
  {
    k.(cancelled := k.cancelled + 1,
       fates := k.fates.(lost := k.fates.lost + HeldUp(k), unread := k.fates.unread + Unobserved(k)))
  }

  /** The trade whose put is waiting. */
  function HeldUp(k: Socket): seq<Seen> { Tagged(Blocked(k.phase), k.sessions) }

  /** What the pump has not observed yet of its frame. */
  function Unobserved(k: Socket): seq<Seen>
  {
    if k.phase.Pumping? then Tagged(k.phase.frame, k.sessions) else []
  }

  /** IngestRunner.handle_reconnect. */
  function Reconnected(c: Config, w: Watch): Watch
  {
    if c.resetsOnReconnect then w.(marks := map[], epoch := |w.seen|, epochReports := |w.reports|) else w
  }

  /** The tracker's part of one turn of the loop in IngestRunner.handle_message. */
  function Observed(c: Config, w: Watch, t: Trade, session: nat): Watch
  {
    var (marks, gap) := Gaps.Step(w.marks, ObservationOf(c, t));
    w.(marks := marks, seen := w.seen + [Seen(t, session)],
       reports := if gap.Some? then w.reports + [Report(gap.value, session)] else w.reports)
  }

  /** A gap starts a repair task. */
  function Spawned(c: Config, w: Watch, t: Trade, r: Repairs): Repairs
  {
    if Gaps.Step(w.marks, ObservationOf(c, t)).1.Some? then r.(tasks := r.tasks[|w.reports| := Fetching]) else r
  }

  predicate Carries(trades: seq<Trade>, gap: Gap, id: int)
  {
    exists t <- trades :: t.venue == gap.venue && t.venueSymbol == gap.venueSymbol && t.sequence == Some(id)
  }

  predicate Complete(gap: Gap, trades: seq<Trade>)
  {
    forall id | gap.lastSeen < id < gap.nextSeen :: Carries(trades, gap, id)
  }

  /** The response of connector.repair arrives at the task of report `id`. */
  function Replied(r: Repairs, id: nat, reply: seq<Trade>, complete: bool): Repairs
  {
    Repairs(if reply == [] then r.tasks - {id} else r.tasks[id := Putting(reply)],
            if complete then r.unrepaired else r.unrepaired + {id})
  }

  /** The head of drain's loop: flush and return once stop is set and the queue is empty. */
  function LoopOrExit(p: Pipe, stop: bool, flushOk: bool): Pipe
  {
    if stop && p.queue == [] then
      p.(sinkOps := p.sinkOps + [Flush], drain := if flushOk then Returned else Dead([]))
    else
      p.(drain := Waiting)
  }

  function Taken(p: Pipe, stop: bool, outcome: TakeOutcome, flushOk: bool): Pipe
    requires p.queue != []
  {
    var t, p' := p.queue[0], p.(queue := p.queue[1..]);
    match outcome
    case ProduceRaised => p'.(drain := Dead([t]))
    case PollRaised => p'.(sinkOps := p.sinkOps + [Produce(t)] + [Poll], drain := Dead([]))
    case Published => LoopOrExit(p'.(sinkOps := p.sinkOps + [Produce(t)] + [Poll]), stop, flushOk)
  }

  function Idled(p: Pipe, stop: bool, pollOk: bool, flushOk: bool): Pipe
  {
    var p' := p.(sinkOps := p.sinkOps + [Poll]);
    if pollOk then LoopOrExit(p', stop, flushOk) else p'.(drain := Dead([]))
  }

  function Apply(c: Config, s: State, step: Step): State
    requires Enabled(c, s, step)
  {
    var k := s.socket;
    match step
    case SetStop => s.(stop := true)
    case LoopCheck => s.(socket := k.(phase := if s.stop then Ended else Dialing))
    case Dial(ok) => s.(socket := if ok then k.(phase := Subscribing) else Failed(k, s.stop))
    case Subscribe(ok) =>
      if !ok then s.(socket := Failed(k, s.stop)) else
        s.(socket := k.(phase := Pumping([], None), hasConnected := true, sessions := k.sessions + 1,
                        hooks := if k.hasConnected then k.hooks + 1 else k.hooks),
           watch := if k.hasConnected then Reconnected(c, s.watch) else s.watch)
    case Frame(trades) => s.(socket := Arrived(k, trades))
    case ObserveNext =>
      var t, rest := k.phase.frame[0], k.phase.frame[1..];
      s.(watch := Observed(c, s.watch, t, k.sessions), repairs := Spawned(c, s.watch, t, s.repairs),
         socket := if Room(c, s) then PumpPut(k, t, rest) else k.(phase := Pumping(rest, Some(t))),
         pipe := if Room(c, s) then Accept(s.pipe, t) else s.pipe)
    case UnblockPump =>
      s.(socket := PumpPut(k, k.phase.blocked.value, k.phase.frame), pipe := Accept(s.pipe, k.phase.blocked.value))
    case SocketClosed(closeOk) => s.(socket := Over(k, s.stop, closeOk))
    case PumpRaise => s.(socket := Failed(k, s.stop))
    case CancelPump(closeOk) => s.(socket := Over(Cancelled(k), s.stop, closeOk))
    case WakeUp => s.(socket := k.(phase := AtLoop))
    case RepairReply(id, reply) =>
      var complete := id < |s.watch.reports| && Complete(s.watch.reports[id].gap, reply);
      s.(repairs := Replied(s.repairs, id, reply, complete))
    case RepairFail(id) => s.(repairs := Repairs(s.repairs.tasks - {id}, s.repairs.unrepaired + {id}))
    case RepairPut(id) =>
      var tasks, rest := s.repairs.tasks, s.repairs.tasks[id].rest;
      s.(pipe := Accept(s.pipe, rest[0]),
         repairs := s.repairs.(tasks := if |rest| == 1 then tasks - {id} else tasks[id := Putting(rest[1..])]))
    case DrainStart(flushOk) => s.(pipe := LoopOrExit(s.pipe, s.stop, flushOk))
    case DrainIdle(pollOk, flushOk) => s.(pipe := Idled(s.pipe, s.stop, pollOk, flushOk))
    case DrainTake(outcome, flushOk) => s.(pipe := Taken(s.pipe, s.stop, outcome, flushOk))
  }

  predicate IsRun(c: Config, s: State, steps: seq<Step>)
    decreases |steps|
  {
    steps == [] || (Enabled(c, s, steps[0]) && IsRun(c, Apply(c, s, steps[0]), steps[1..]))
  }

  function Exec(c: Config, s: State, steps: seq<Step>): State
    requires IsRun(c, s, steps)
    decreases |steps|
  {
    if steps == [] then s else Exec(c, Apply(c, s, steps[0]), steps[1..])
  }

  // Views of the history.

  function TradesOf(seen: seq<Seen>): seq<Trade> { seq(|seen|, i requires 0 <= i < |seen| => seen[i].trade) }

  function Observations(c: Config, seen: seq<Seen>): seq<Observation>
  {
    seq(|seen|, i requires 0 <= i < |seen| => ObservationOf(c, seen[i].trade))
  }

  function GapsIn(reports: seq<Report>): seq<Gap> { seq(|reports|, i requires 0 <= i < |reports| => reports[i].gap) }

  predicate IsStream(t: Trade) { t.source.Stream? }

  function FromStream(trades: seq<Trade>): seq<Trade> { Filter(trades, IsStream) }

  function Produced(ops: seq<SinkOp>): seq<Trade>
  {
    if ops == [] then [] else
      var n := |ops| - 1;
      if ops[n].Produce? then Produced(ops[..n]) + [ops[n].trade] else Produced(ops[..n])
  }

  function Blocked(phase: Phase): seq<Trade>
  {
    if phase.Pumping? && phase.blocked.Some? then [phase.blocked.value] else []
  }

  function Hand(drain: Drain): seq<Trade> { if drain.Dead? then drain.hand else [] }

  // The invariant, part by part.

  /** The tracker is what replaying everything observed since its last replacement would give. */
  predicate WatchInv(c: Config, w: Watch)
  {
    && w.epoch <= |w.seen| && w.epochReports <= |w.reports|
    && Replay(Observations(c, w.seen[w.epoch..])) == Trail(w.marks, GapsIn(w.reports[w.epochReports..]))
  }

  /** Session bookkeeping. The reconnect loop has only ended if it was asked to stop. */
  predicate SocketInv(k: Socket, stop: bool)
  {
    && (k.phase.Ended? ==> stop)
    && k.hasConnected == (k.sessions > 0)
    && k.hooks == (if k.sessions == 0 then 0 else k.sessions - 1)
    && |k.fates.lost| <= k.cancelled && AllStream(k.fates.lost)
    && (k.phase.Pumping? ==> k.sessions > 0 && AllFrom(k.phase.frame, Stream))
    && (k.phase.Pumping? && k.phase.blocked.Some? ==> k.phase.blocked.value.source.Stream?)
  }

  /** Every received trade is in exactly one place, as often as it was received: put, waiting in its put,
      lost with a cancelled put, still in the frame, or never read. The puts are the stream's part of what
      was accepted, in order. */
  predicate StreamInv(seen: seq<Seen>, accepted: seq<Trade>, k: Socket)
  {
    && TradesOf(k.fates.put) == FromStream(accepted)
    && multiset(seen) == multiset(k.fates.put) + multiset(HeldUp(k)) + multiset(k.fates.lost)
    && multiset(k.fates.received) == multiset(seen) + multiset(Unobserved(k)) + multiset(k.fates.unread)
  }

  predicate PipeInv(c: Config, p: Pipe, stop: bool)
  {
    && p.accepted == Produced(p.sinkOps) + Hand(p.drain) + p.queue
    && |Hand(p.drain)| <= 1
    && (c.maxsize > 0 ==> |p.queue| <= c.maxsize)
    && (p.drain.Returned? ==> stop && p.sinkOps != [] && p.sinkOps[|p.sinkOps| - 1] == Flush)
  }

  /** Missing id `id` of a report was enqueued, or is still to be put by that report's task. */
  predicate Delivered(gap: Gap, i: nat, tasks: map<nat, RepairTask>, accepted: seq<Trade>, id: int)
  {
    Carries(accepted, gap, id) || (i in tasks && tasks[i].Putting? && Carries(tasks[i].rest, gap, id))
  }

  predicate Settled(gap: Gap, i: nat, r: Repairs, accepted: seq<Trade>)
  {
    || i in r.unrepaired
    || (i in r.tasks && r.tasks[i].Fetching?)
    || forall id | gap.lastSeen < id < gap.nextSeen :: Delivered(gap, i, r.tasks, accepted, id)
  }

  predicate RepairInv(reports: seq<Report>, r: Repairs, accepted: seq<Trade>)
  {
    && (forall i <- r.tasks :: i < |reports| &&
          (r.tasks[i].Putting? ==> r.tasks[i].rest != [] && AllFrom(r.tasks[i].rest, RestRepair)))
    && (forall i <- r.unrepaired :: i < |reports|)
    && (forall i: nat | i < |reports| :: Settled(reports[i].gap, i, r, accepted))
  }

  /** The pump can only be blocked on the trade it observed last. */
  predicate BlockedInv(w: Watch, phase: Phase)
  {
    phase.Pumping? && phase.blocked.Some? ==>
      w.epoch < |w.seen| && w.seen[|w.seen| - 1].trade == phase.blocked.value
  }

  predicate EpochInv(c: Config, w: Watch, sessions: nat)
  {
    && w.epoch <= |w.seen|
    && (sessions == 0 ==> w.seen == [])
    && (forall e <- w.seen :: e.session <= sessions)
    && (forall e <- w.seen[..w.epoch] :: e.session < sessions)
    && (c.resetsOnReconnect ==> forall e <- w.seen[w.epoch..] :: e.session == sessions)
    && (!c.resetsOnReconnect ==> w.epoch == 0 && w.epochReports == 0)
  }

  ghost predicate SeenEntry(c: Config, seen: seq<Seen>, i: int, session: nat, key: Key, id: int)
  {
    && 0 <= i < |seen| && seen[i].session == session
    && ObservationOf(c, seen[i].trade).Key() == key && seen[i].trade.sequence == Some(id)
  }

  /** Both ends of the report were observed, in order, in the session that reported it. */
  ghost predicate EndsSeen(c: Config, seen: seq<Seen>, r: Report)
  {
    exists i, j :: i < j && SeenEntry(c, seen, i, r.session, r.gap.Key(), r.gap.lastSeen)
                   && SeenEntry(c, seen, j, r.session, r.gap.Key(), r.gap.nextSeen)
  }

  ghost predicate ScopeInv(c: Config, w: Watch)
  {
    c.resetsOnReconnect ==> forall r <- w.reports :: EndsSeen(c, w.seen, r)
  }

  ghost predicate Inv(c: Config, s: State)
  {
    && WatchInv(c, s.watch) && SocketInv(s.socket, s.stop) && StreamBooks(s)
    && PipeInv(c, s.pipe, s.stop) && RepairInv(s.watch.reports, s.repairs, s.pipe.accepted)
    && EpochInv(c, s.watch, s.socket.sessions) && ScopeInv(c, s.watch) && BlockedInv(s.watch, s.socket.phase)
  }

  lemma ObservedKeepsWatch(c: Config, w: Watch, t: Trade, session: nat)
    requires WatchInv(c, w)
    ensures WatchInv(c, Observed(c, w, t, session))
  {
    var w' := Observed(c, w, t, session);
    var history := Observations(c, w.seen[w.epoch..]);
    assert Observations(c, w'.seen[w'.epoch..]) == history + [ObservationOf(c, t)];
    ReplaySnoc(history, ObservationOf(c, t));
    if w'.reports != w.reports {
      assert GapsIn(w'.reports[w'.epochReports..]) == GapsIn(w.reports[w.epochReports..]) + [w'.reports[|w.reports|].gap];
    }
  }

  lemma KeepsWatch(c: Config, s: State, step: Step)
    requires WatchInv(c, s.watch) && Enabled(c, s, step)
    ensures WatchInv(c, Apply(c, s, step).watch)
  {
    match step
    case ObserveNext => ObservedKeepsWatch(c, s.watch, s.socket.phase.frame[0], s.socket.sessions);
    case _ =>
  }

  lemma KeepsSocket(c: Config, s: State, step: Step)
    requires SocketInv(s.socket, s.stop) && Enabled(c, s, step)
    ensures SocketInv(Apply(c, s, step).socket, Apply(c, s, step).stop)
  {
  }

  lemma FromStreamSnoc(trades: seq<Trade>, t: Trade)
    ensures FromStream(trades + [t]) == if t.source.Stream? then FromStream(trades) + [t] else FromStream(trades)
  {
    FilterSnoc(trades, t, IsStream);
  }

  lemma PutThenAccepted(put: seq<Seen>, accepted: seq<Trade>, e: Seen)
    requires TradesOf(put) == FromStream(accepted) && e.trade.source.Stream?
    ensures TradesOf(put + [e]) == FromStream(accepted + [e.trade])
  {
    FromStreamSnoc(accepted, e.trade);
    assert TradesOf(put + [e]) == TradesOf(put) + [e.trade];
  }

  lemma TaggedHead(trades: seq<Trade>, session: nat)
    requires trades != []
    ensures multiset(Tagged(trades, session)) == multiset{Seen(trades[0], session)} + multiset(Tagged(trades[1..], session))
  {
    assert Tagged(trades, session) == [Seen(trades[0], session)] + Tagged(trades[1..], session);
  }

  lemma SnocCounts<T>(s: seq<T>, x: T)
    ensures multiset(s + [x]) == multiset(s) + multiset{x}
  {
  }

  /** Steps other than those that move a stream trade leave the stream's books alone. */
  lemma OthersLeaveStream(c: Config, s: State, step: Step)
    requires Enabled(c, s, step)
    requires !(step.Frame? || step.ObserveNext? || step.UnblockPump? || step.CancelPump? || step.RepairPut?)
    ensures var s' := Apply(c, s, step);
            && s'.watch.seen == s.watch.seen && s'.pipe.accepted == s.pipe.accepted
            && HeldUp(s'.socket) == HeldUp(s.socket) && Unobserved(s'.socket) == Unobserved(s.socket)
            && s'.socket.fates == s.socket.fates
  {
  }

  predicate StreamBooks(s: State) { StreamInv(s.watch.seen, s.pipe.accepted, s.socket) }

  lemma FrameKeepsStream(c: Config, s: State, trades: seq<Trade>)
    requires StreamBooks(s) && Enabled(c, s, Frame(trades))
    ensures StreamBooks(Apply(c, s, Frame(trades)))
  {
    var k, k' := s.socket, Apply(c, s, Frame(trades)).socket;
    assert HeldUp(k) == [] && Unobserved(k) == [] && HeldUp(k') == [];
    assert Unobserved(k') == Tagged(trades, k.sessions);
  }

  lemma ObserveKeepsStream(c: Config, s: State)
    requires StreamBooks(s) && Enabled(c, s, ObserveNext) && s.socket.phase.frame[0].source.Stream?
    ensures StreamBooks(Apply(c, s, ObserveNext))
  {
    var k, k' := s.socket, Apply(c, s, ObserveNext).socket;
    var e := Seen(k.phase.frame[0], k.sessions);
    TaggedHead(k.phase.frame, k.sessions);
    SnocCounts(s.watch.seen, e);
    assert HeldUp(k) == [] && Unobserved(k') == Tagged(k.phase.frame[1..], k.sessions);
    if Room(c, s) {
      PutThenAccepted(k.fates.put, s.pipe.accepted, e);
      SnocCounts(k.fates.put, e);
      assert HeldUp(k') == [];
    } else {
      assert HeldUp(k') == [e];
    }
  }

  lemma UnblockKeepsStream(c: Config, s: State)
    requires StreamBooks(s) && Enabled(c, s, UnblockPump) && s.socket.phase.blocked.value.source.Stream?
    ensures StreamBooks(Apply(c, s, UnblockPump))
  {
    var k, k' := s.socket, Apply(c, s, UnblockPump).socket;
    var e := Seen(k.phase.blocked.value, k.sessions);
    PutThenAccepted(k.fates.put, s.pipe.accepted, e);
    SnocCounts(k.fates.put, e);
    assert HeldUp(k) == [e] && HeldUp(k') == [] && Unobserved(k') == Unobserved(k);
  }

  lemma CancelKeepsStream(c: Config, s: State, closeOk: bool)
    requires StreamBooks(s) && Enabled(c, s, CancelPump(closeOk))
    ensures StreamBooks(Apply(c, s, CancelPump(closeOk)))
  {
    var k' := Apply(c, s, CancelPump(closeOk)).socket;
    assert HeldUp(k') == [] && Unobserved(k') == [];
  }

  lemma RepairPutKeepsStream(c: Config, s: State, id: nat)
    requires StreamBooks(s) && Enabled(c, s, RepairPut(id)) && s.repairs.tasks[id].rest[0].source.RestRepair?
    ensures StreamBooks(Apply(c, s, RepairPut(id)))
  {
    FromStreamSnoc(s.pipe.accepted, s.repairs.tasks[id].rest[0]);
  }

  lemma KeepsStream(c: Config, s: State, step: Step)
    requires StreamBooks(s) && SocketInv(s.socket, s.stop)
    requires RepairInv(s.watch.reports, s.repairs, s.pipe.accepted) && Enabled(c, s, step)
    ensures StreamBooks(Apply(c, s, step))
  {
    match step
    case Frame(trades) => FrameKeepsStream(c, s, trades);
    case ObserveNext =>
      assert s.socket.phase.frame[0] in s.socket.phase.frame;
      ObserveKeepsStream(c, s);
    case UnblockPump => UnblockKeepsStream(c, s);
    case CancelPump(closeOk) => CancelKeepsStream(c, s, closeOk);
    case RepairPut(id) =>
      assert s.repairs.tasks[id].rest[0] in s.repairs.tasks[id].rest;
      RepairPutKeepsStream(c, s, id);
    case _ => OthersLeaveStream(c, s, step);
  }

  lemma ProducedSnoc(ops: seq<SinkOp>, op: SinkOp)
    ensures Produced(ops + [op]) == if op.Produce? then Produced(ops) + [op.trade] else Produced(ops)
  {
    assert (ops + [op])[..|ops|] == ops;
  }

  lemma LoopOrExitKeepsPipe(c: Config, p: Pipe, stop: bool, flushOk: bool)
    requires PipeInv(c, p, stop) && Hand(p.drain) == []
    ensures PipeInv(c, LoopOrExit(p, stop, flushOk), stop)
  {
    ProducedSnoc(p.sinkOps, Flush);
  }

  lemma ProducedAndPolled(ops: seq<SinkOp>, t: Trade)
    ensures Produced(ops + [Produce(t)] + [Poll]) == Produced(ops) + [t]
  {
    ProducedSnoc(ops, Produce(t));
    ProducedSnoc(ops + [Produce(t)], Poll);
  }

  lemma TakenKeepsPipe(c: Config, p: Pipe, stop: bool, outcome: TakeOutcome, flushOk: bool)
    requires PipeInv(c, p, stop) && p.drain.Waiting? && p.queue != []
    ensures PipeInv(c, Taken(p, stop, outcome, flushOk), stop)
  {
    var t, ops := p.queue[0], p.sinkOps;
    ProducedAndPolled(ops, t);
    assert p.queue == [t] + p.queue[1..];
    AppendAssociates(Produced(ops), [t], p.queue[1..]);
    if outcome.Published? {
      LoopOrExitKeepsPipe(c, p.(queue := p.queue[1..], sinkOps := ops + [Produce(t)] + [Poll]), stop, flushOk);
    }
  }

  lemma KeepsPipe(c: Config, s: State, step: Step)
    requires PipeInv(c, s.pipe, s.stop) && Enabled(c, s, step)
    ensures PipeInv(c, Apply(c, s, step).pipe, Apply(c, s, step).stop)
  {
    match step
    case DrainStart(flushOk) => LoopOrExitKeepsPipe(c, s.pipe, s.stop, flushOk);
    case DrainIdle(pollOk, flushOk) =>
      ProducedSnoc(s.pipe.sinkOps, Poll);
      LoopOrExitKeepsPipe(c, s.pipe.(sinkOps := s.pipe.sinkOps + [Poll]), s.stop, flushOk);
    case DrainTake(outcome, flushOk) => TakenKeepsPipe(c, s.pipe, s.stop, outcome, flushOk);
    case _ =>
  }

  lemma KeepsEpoch(c: Config, s: State, step: Step)
    requires EpochInv(c, s.watch, s.socket.sessions) && SocketInv(s.socket, s.stop) && Enabled(c, s, step)
    ensures EpochInv(c, Apply(c, s, step).watch, Apply(c, s, step).socket.sessions)
  {
    var s' := Apply(c, s, step);
    match step
    case ObserveNext =>
      assert s'.watch.seen[s'.watch.epoch..]
          == s.watch.seen[s.watch.epoch..] + [Seen(s.socket.phase.frame[0], s.socket.sessions)];
    case _ =>
  }

  lemma EndsStaySeen(c: Config, seen: seq<Seen>, more: seq<Seen>, r: Report)
    requires EndsSeen(c, seen, r) && seen <= more
    ensures EndsSeen(c, more, r)
  {
    var i, j :| i < j && SeenEntry(c, seen, i, r.session, r.gap.Key(), r.gap.lastSeen)
                && SeenEntry(c, seen, j, r.session, r.gap.Key(), r.gap.nextSeen);
    assert SeenEntry(c, more, i, r.session, r.gap.Key(), r.gap.lastSeen);
    assert SeenEntry(c, more, j, r.session, r.gap.Key(), r.gap.nextSeen);
  }

  /** A gap found in the observations from `epoch` on, all of one session, has both its ends there. */
  lemma NewGapEndsSeen(c: Config, seen: seq<Seen>, epoch: nat, gap: Gap, session: nat)
    requires epoch <= |seen| && (forall e <- seen[epoch..] :: e.session == session)
    requires gap in Replay(Observations(c, seen[epoch..])).gaps
    ensures EndsSeen(c, seen, Report(gap, session))
  {
    var current := seen[epoch..];
    var history := Observations(c, current);
    GapEndsWereObserved(history, gap);
    var i, j :| Numbered(history, i, gap.Key()) && Numbered(history, j, gap.Key()) && i < j
                && history[i].sequence.value == gap.lastSeen && history[j].sequence.value == gap.nextSeen;
    assert current[i].session == session && current[j].session == session;
    assert SeenEntry(c, seen, i + epoch, session, gap.Key(), gap.lastSeen);
    assert SeenEntry(c, seen, j + epoch, session, gap.Key(), gap.nextSeen);
  }

  /** Under a connection-scoped sequence the tracker only knows the current session, so both ends of
      a new report come from it. */
  lemma ObservedKeepsScope(c: Config, w: Watch, t: Trade, session: nat)
    requires c.resetsOnReconnect && WatchInv(c, w) && EpochInv(c, w, session) && ScopeInv(c, w)
    ensures ScopeInv(c, Observed(c, w, t, session))
  {
    var w' := Observed(c, w, t, session);
    forall r | r in w'.reports ensures EndsSeen(c, w'.seen, r) {
      if r in w.reports {
        EndsStaySeen(c, w.seen, w'.seen, r);
      } else {
        ObservedKeepsWatch(c, w, t, session);
        assert w'.seen[w'.epoch..] == w.seen[w.epoch..] + [Seen(t, session)];
        assert GapsIn(w'.reports[w'.epochReports..])[|w.reports| - w.epochReports] == r.gap;
        NewGapEndsSeen(c, w'.seen, w'.epoch, r.gap, session);
      }
    }
  }

  lemma KeepsScope(c: Config, s: State, step: Step)
    requires WatchInv(c, s.watch) && EpochInv(c, s.watch, s.socket.sessions) && ScopeInv(c, s.watch)
    requires Enabled(c, s, step)
    ensures ScopeInv(c, Apply(c, s, step).watch)
  {
    match step
    case ObserveNext =>
      if c.resetsOnReconnect {
        ObservedKeepsScope(c, s.watch, s.socket.phase.frame[0], s.socket.sessions);
      }
    case _ =>
  }

  // Repairs.

  lemma CarriesMore(trades: seq<Trade>, t: Trade, gap: Gap, id: int)
    requires Carries(trades, gap, id)
    ensures Carries(trades + [t], gap, id)
  {
    var u :| u in trades && u.venue == gap.venue && u.venueSymbol == gap.venueSymbol && u.sequence == Some(id);
    assert u in trades + [t];
  }

  /** Accepting one more trade never unsettles a report. */
  lemma AcceptKeepsRepair(reports: seq<Report>, r: Repairs, accepted: seq<Trade>, t: Trade)
    requires RepairInv(reports, r, accepted)
    ensures RepairInv(reports, r, accepted + [t])
  {
    forall i: nat | i < |reports| ensures Settled(reports[i].gap, i, r, accepted + [t]) {
      var gap := reports[i].gap;
      if i !in r.unrepaired && !(i in r.tasks && r.tasks[i].Fetching?) {
        assert Settled(gap, i, r, accepted);
        forall id | gap.lastSeen < id < gap.nextSeen ensures Delivered(gap, i, r.tasks, accepted + [t], id) {
          assert Delivered(gap, i, r.tasks, accepted, id);
          if Carries(accepted, gap, id) {
            CarriesMore(accepted, t, gap, id);
          }
        }
      }
    }
  }

  /** A repair task moves the head of its reply into the queue. */
  lemma PutKeepsRepair(reports: seq<Report>, r: Repairs, accepted: seq<Trade>, k: nat)
    requires RepairInv(reports, r, accepted) && k in r.tasks && r.tasks[k].Putting?
    ensures var rest := r.tasks[k].rest;
            RepairInv(reports, r.(tasks := if |rest| == 1 then r.tasks - {k} else r.tasks[k := Putting(rest[1..])]),
                      accepted + [rest[0]])
  {
    var rest := r.tasks[k].rest;
    var t, tasks := rest[0], if |rest| == 1 then r.tasks - {k} else r.tasks[k := Putting(rest[1..])];
    assert rest == [t] + rest[1..];
    AcceptKeepsRepair(reports, r, accepted, t);
    var gap := reports[k].gap;
    if k !in r.unrepaired {
      assert Settled(gap, k, r, accepted);
      forall id | gap.lastSeen < id < gap.nextSeen ensures Delivered(gap, k, tasks, accepted + [t], id) {
        assert Delivered(gap, k, r.tasks, accepted, id);
        if Carries(accepted, gap, id) {
          CarriesMore(accepted, t, gap, id);
        } else if !(t.venue == gap.venue && t.venueSymbol == gap.venueSymbol && t.sequence == Some(id)) {
          assert Carries(rest[1..], gap, id);
        } else {
          assert t in accepted + [t];
        }
      }
    }
    forall i: nat | i < |reports| && i != k ensures Settled(reports[i].gap, i, r.(tasks := tasks), accepted + [t]) {
      assert Settled(reports[i].gap, i, r, accepted + [t]);
      if i !in r.unrepaired && !(i in r.tasks && r.tasks[i].Fetching?) {
        forall id | reports[i].gap.lastSeen < id < reports[i].gap.nextSeen
          ensures Delivered(reports[i].gap, i, tasks, accepted + [t], id)
        {
          assert Delivered(reports[i].gap, i, r.tasks, accepted + [t], id);
        }
      }
    }
  }

  lemma ReplyKeepsRepair(reports: seq<Report>, r: Repairs, accepted: seq<Trade>, k: nat, reply: seq<Trade>)
    requires RepairInv(reports, r, accepted) && k in r.tasks && AllFrom(reply, RestRepair)
    ensures RepairInv(reports, Replied(r, k, reply, Complete(reports[k].gap, reply)), accepted)
  {
    var r' := Replied(r, k, reply, Complete(reports[k].gap, reply));
    var gap := reports[k].gap;
    if Complete(gap, reply) {
      forall id | gap.lastSeen < id < gap.nextSeen ensures Delivered(gap, k, r'.tasks, accepted, id) {
        assert Carries(reply, gap, id);
      }
    }
    forall i: nat | i < |reports| ensures Settled(reports[i].gap, i, r', accepted) {
      assert Settled(reports[i].gap, i, r, accepted);
      if i != k && i !in r.unrepaired && !(i in r.tasks && r.tasks[i].Fetching?) {
        forall id | reports[i].gap.lastSeen < id < reports[i].gap.nextSeen
          ensures Delivered(reports[i].gap, i, r'.tasks, accepted, id)
        {
          assert Delivered(reports[i].gap, i, r.tasks, accepted, id);
        }
      }
    }
  }

  lemma FailKeepsRepair(reports: seq<Report>, r: Repairs, accepted: seq<Trade>, k: nat)
    requires RepairInv(reports, r, accepted) && k in r.tasks
    ensures RepairInv(reports, Repairs(r.tasks - {k}, r.unrepaired + {k}), accepted)
  {
    var r' := Repairs(r.tasks - {k}, r.unrepaired + {k});
    forall i: nat | i < |reports| ensures Settled(reports[i].gap, i, r', accepted) {
      assert Settled(reports[i].gap, i, r, accepted);
      if i !in r'.unrepaired && !(i in r'.tasks && r'.tasks[i].Fetching?) {
        forall id | reports[i].gap.lastSeen < id < reports[i].gap.nextSeen
          ensures Delivered(reports[i].gap, i, r'.tasks, accepted, id)
        {
          assert Delivered(reports[i].gap, i, r.tasks, accepted, id);
        }
      }
    }
  }

  lemma SpawnKeepsRepair(reports: seq<Report>, r: Repairs, accepted: seq<Trade>, report: Report)
    requires RepairInv(reports, r, accepted)
    ensures RepairInv(reports + [report], r.(tasks := r.tasks[|reports| := Fetching]), accepted)
  {
    var tasks := r.tasks[|reports| := Fetching];
    forall i: nat | i < |reports| ensures Settled(reports[i].gap, i, r.(tasks := tasks), accepted) {
      assert Settled(reports[i].gap, i, r, accepted);
      if i !in r.unrepaired && !(i in r.tasks && r.tasks[i].Fetching?) {
        forall id | reports[i].gap.lastSeen < id < reports[i].gap.nextSeen
          ensures Delivered(reports[i].gap, i, tasks, accepted, id)
        {
          assert Delivered(reports[i].gap, i, r.tasks, accepted, id);
        }
      }
    }
  }

  lemma KeepsRepair(c: Config, s: State, step: Step)
    requires RepairInv(s.watch.reports, s.repairs, s.pipe.accepted) && Enabled(c, s, step)
    ensures var s' := Apply(c, s, step); RepairInv(s'.watch.reports, s'.repairs, s'.pipe.accepted)
  {
    var reports, r, accepted := s.watch.reports, s.repairs, s.pipe.accepted;
    match step
    case ObserveNext =>
      var s' := Apply(c, s, step);
      if |s'.watch.reports| > |reports| {
        SpawnKeepsRepair(reports, r, accepted, s'.watch.reports[|reports|]);
      }
      AcceptKeepsRepair(s'.watch.reports, s'.repairs, accepted, s.socket.phase.frame[0]);
    case UnblockPump => AcceptKeepsRepair(reports, r, accepted, s.socket.phase.blocked.value);
    case RepairReply(id, reply) => ReplyKeepsRepair(reports, r, accepted, id, reply);
    case RepairFail(id) => FailKeepsRepair(reports, r, accepted, id);
    case RepairPut(id) => PutKeepsRepair(reports, r, accepted, id);
    case _ =>
  }

  lemma KeepsBlocked(c: Config, s: State, step: Step)
    requires s.watch.epoch <= |s.watch.seen| && BlockedInv(s.watch, s.socket.phase) && Enabled(c, s, step)
    ensures BlockedInv(Apply(c, s, step).watch, Apply(c, s, step).socket.phase)
  {
  }

  /** What every step of every coroutine keeps. */
  lemma StepKeepsInv(c: Config, s: State, step: Step)
    requires Inv(c, s) && Enabled(c, s, step)
    ensures Inv(c, Apply(c, s, step))
  {
    KeepsWatch(c, s, step);
    KeepsSocket(c, s, step);
    KeepsStream(c, s, step);
    KeepsPipe(c, s, step);
    KeepsRepair(c, s, step);
    KeepsEpoch(c, s, step);
    KeepsScope(c, s, step);
    KeepsBlocked(c, s, step);
  }

  lemma {:induction false} RunKeepsInv(c: Config, s: State, steps: seq<Step>)
    requires Inv(c, s) && IsRun(c, s, steps)
    ensures Inv(c, Exec(c, s, steps))
    decreases |steps|
  {
    if steps != [] {
      StepKeepsInv(c, s, steps[0]);
      RunKeepsInv(c, Apply(c, s, steps[0]), steps[1..]);
    }
  }

  lemma StartInv(c: Config)
    ensures Inv(c, START)
  {
    assert Observations(c, START.watch.seen[0..]) == [] && GapsIn(START.watch.reports[0..]) == [];
    assert TradesOf([]) == [] && FromStream([]) == [] && HeldUp(START.socket) == [] && Unobserved(START.socket) == [];
  }

  lemma {:induction false} RunSnoc(c: Config, s: State, steps: seq<Step>, step: Step)
    requires IsRun(c, s, steps) && Enabled(c, Exec(c, s, steps), step)
    ensures IsRun(c, s, steps + [step]) && Exec(c, s, steps + [step]) == Apply(c, Exec(c, s, steps), step)
    decreases |steps|
  {
    if steps == [] {
      assert ([step])[1..] == [];
    } else {
      RunSnoc(c, Apply(c, s, steps[0]), steps[1..], step);
      assert (steps + [step])[1..] == steps[1..] + [step];
    }
  }

  /** States some interleaving of the coroutines can reach. */
  ghost predicate Reachable(c: Config, s: State) { exists steps :: IsRun(c, START, steps) && Exec(c, START, steps) == s }

  lemma ReachableInv(c: Config, s: State)
    requires Reachable(c, s)
    ensures Inv(c, s)
  {
    var steps :| IsRun(c, START, steps) && Exec(c, START, steps) == s;
    StartInv(c);
    RunKeepsInv(c, START, steps);
  }

  lemma ReachStep(c: Config, s: State, step: Step)
    requires Reachable(c, s) && Enabled(c, s, step)
    ensures Reachable(c, Apply(c, s, step))
  {
    var steps :| IsRun(c, START, steps) && Exec(c, START, steps) == s;
    RunSnoc(c, START, steps, step);
  }
}
