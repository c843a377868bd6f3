/** Shutting the ingest runtime down (ingest/runner.py, `run`): it can always be done cleanly while drain is
    alive and nobody has asked for it yet, and it can hang once drain has returned. */
module IngestShutdown {
  import opened Prelude
  import opened IngestProtocol
  import opened IngestSafety
  import opened IngestProgress

  /** What the repair of each report comes back with. */
  type Answers = nat -> seq<Trade>

  ghost predicate AllRepairs(answers: Answers) { forall id :: AllFrom(answers(id), RestRepair) }

  /** Steps of a shutdown: the stream delivers no more, repairs come back with these answers, and the sink
      does not raise. */
  function Orderly(answers: Answers): Step -> bool
  {
    (step: Step) =>
      match step
      case Frame(_) => false
      case PumpRaise => false
      case SocketClosed(_) => false
      case RepairFail(_) => false
      case RepairReply(id, reply) => reply == answers(id)
      case DrainStart(flushOk) => flushOk
      case DrainIdle(pollOk, flushOk) => pollOk && flushOk
      case DrainTake(outcome, flushOk) => outcome.Published? && flushOk
      case _ => true
  }

  /** Drain is waiting for trades and nobody has asked it to stop. */
  predicate Draining(s: State) { !s.stop && s.pipe.drain.Waiting? }

  lemma {:induction false} QueueCanEmpty(c: Config, s: State, answers: Answers) returns (s': State)
    requires Draining(s)
    ensures LeadsTo(c, s, s', Orderly(answers)) && Draining(s')
    ensures s'.pipe.queue == [] && s'.pipe.accepted == s.pipe.accepted
    ensures s'.socket == s.socket && s'.watch == s.watch && s'.repairs == s.repairs
    decreases |s.pipe.queue|
  {
    Stay(c, s, Orderly(answers));
    s' := s;
    if s.pipe.queue != [] {
      var mid := Next(c, s, s, DrainTake(Published, true), Orderly(answers));
      s' := QueueCanEmpty(c, mid, answers);
      Chain(c, s, mid, s', Orderly(answers));
    }
  }

  /** The pump handles the rest of its frame, drain making room for each put. */
  lemma {:induction false} PumpCanFinish(c: Config, s: State, answers: Answers) returns (s': State)
    requires Draining(s) && s.socket.phase.Pumping?
    ensures LeadsTo(c, s, s', Orderly(answers)) && Draining(s')
    ensures s'.socket.phase == Pumping([], None)
    ensures s'.socket.fates == s.socket.fates.(put := s'.socket.fates.put)
    decreases |s.socket.phase.frame|, s.socket.phase.blocked.Some?
  {
    Stay(c, s, Orderly(answers));
    s' := s;
    if s.socket.phase != Pumping([], None) {
      var mid := QueueCanEmpty(c, s, answers);
      mid := Next(c, s, mid, if s.socket.phase.blocked.Some? then UnblockPump else ObserveNext, Orderly(answers));
      s' := PumpCanFinish(c, mid, answers);
      Chain(c, s, mid, s', Orderly(answers));
    }
  }

  predicate RestsAreLeft(r: Repairs) { forall id <- r.tasks :: r.tasks[id].Putting? ==> r.tasks[id].rest != [] }

  /** A repair task puts what it has left, drain making room for each put. */
  lemma {:induction false} PutsCanFinish(c: Config, s: State, id: nat, answers: Answers) returns (s': State)
    requires Draining(s) && IsPutting(s, id) && s.repairs.tasks[id].rest != []
    ensures LeadsTo(c, s, s', Orderly(answers)) && Draining(s')
    ensures s'.socket == s.socket && s'.repairs.tasks == s.repairs.tasks - {id}
    decreases |s.repairs.tasks[id].rest|
  {
    s' := QueueCanEmpty(c, s, answers);
    s' := Next(c, s, s', RepairPut(id), Orderly(answers));
    if id in s'.repairs.tasks {
      var end := PutsCanFinish(c, s', id, answers);
      Chain(c, s, s', end, Orderly(answers));
      assert end.repairs.tasks == s.repairs.tasks - {id};
      s' := end;
    }
  }

  lemma TaskCanFinish(c: Config, s: State, id: nat, answers: Answers) returns (s': State)
    requires Draining(s) && id in s.repairs.tasks && RestsAreLeft(s.repairs) && AllRepairs(answers)
    ensures LeadsTo(c, s, s', Orderly(answers)) && Draining(s')
    ensures s'.socket == s.socket && s'.repairs.tasks == s.repairs.tasks - {id}
  {
    Stay(c, s, Orderly(answers));
    s' := s;
    if s.repairs.tasks[id].Fetching? {
      s' := Next(c, s, s, RepairReply(id, answers(id)), Orderly(answers));
    }
    if id in s'.repairs.tasks {
      var end := PutsCanFinish(c, s', id, answers);
      Chain(c, s, s', end, Orderly(answers));
      assert end.repairs.tasks == s.repairs.tasks - {id};
      s' := end;
    }
  }

  lemma {:induction false} RepairsCanFinish(c: Config, s: State, answers: Answers) returns (s': State)
    requires Draining(s) && RestsAreLeft(s.repairs) && AllRepairs(answers)
    ensures LeadsTo(c, s, s', Orderly(answers)) && Draining(s')
    ensures s'.socket == s.socket && s'.repairs.tasks == map[]
    decreases |s.repairs.tasks|
  {
    Stay(c, s, Orderly(answers));
    s' := s;
    if s.repairs.tasks != map[] {
      var id :| id in s.repairs.tasks;
      var mid := TaskCanFinish(c, s, id, answers);
      assert mid.repairs.tasks.Keys == s.repairs.tasks.Keys - {id};
      s' := RepairsCanFinish(c, mid, answers);
      Chain(c, s, mid, s', Orderly(answers));
    }
  }

  /** Asked to stop with nothing in its hands, the reconnect loop can end. */
  lemma LoopCanEnd(c: Config, s: State, answers: Answers) returns (s': State)
    requires s.stop && HeldUp(s.socket) == [] && Unobserved(s.socket) == []
    ensures LeadsTo(c, s, s', Orderly(answers)) && s'.stop && s'.socket.phase.Ended?
    ensures s'.socket.fates == s.socket.fates && s'.pipe == s.pipe && s'.repairs == s.repairs
  {
    Stay(c, s, Orderly(answers));
    s' := s;
    if s'.socket.phase.Dialing? {
      s' := Next(c, s, s', Dial(false), Orderly(answers));
    } else if s'.socket.phase.Subscribing? {
      s' := Next(c, s, s', Subscribe(false), Orderly(answers));
    } else if s'.socket.phase.Pumping? {
      NothingHeld(s'.socket);
      s' := Next(c, s, s', CancelPump(true), Orderly(answers));
    } else if s'.socket.phase.Sleeping? {
      s' := Next(c, s, s', WakeUp, Orderly(answers));
    }
    if s'.socket.phase.AtLoop? {
      s' := Next(c, s, s', LoopCheck, Orderly(answers));
    }
  }

  lemma NothingHeld(k: Socket)
    requires k.phase.Pumping? && HeldUp(k) == [] && Unobserved(k) == []
    ensures k.phase == Pumping([], None)
    ensures k.fates.lost + HeldUp(k) == k.fates.lost && k.fates.unread + Unobserved(k) == k.fates.unread
  {
    assert |HeldUp(k)| == |Blocked(k.phase)| && |Unobserved(k)| == |k.phase.frame|;
  }

  /** Everything `run` waits for has ended, and no trade is left anywhere but with the sink. */
  predicate ShutDown(s: State)
  {
    s.stop && s.socket.phase.Ended? && s.repairs.tasks == map[] && s.pipe.drain.Returned? && Exited(s.pipe)
  }

  /** From every reachable state in which drain is alive and nobody has asked to stop, the runtime can be shut
      down, whatever the outstanding repairs come back with: every task ends, every received trade that was not
      lost already is published, and nothing stays in the queue. */
  lemma CanShutDown(c: Config, s: State, answers: Answers) returns (s': State)
    requires Reachable(c, s) && !s.stop && !DrainEnded(s) && AllRepairs(answers)
    ensures LeadsTo(c, s, s', Orderly(answers)) && ShutDown(s')
    ensures multiset(s'.socket.fates.received) == multiset(s'.socket.fates.put) + multiset(Gone(s.socket))
    ensures s'.socket.fates.received == s.socket.fates.received
    ensures TradesOf(s'.socket.fates.put) == FromStream(Produced(s'.pipe.sinkOps))
  {
    ReachableInv(c, s);
    Stay(c, s, Orderly(answers));
    s' := s;
    if s.pipe.drain.NotStarted? {
      s' := Next(c, s, s, DrainStart(true), Orderly(answers));
    }
    if s'.socket.phase.Pumping? {
      var mid := PumpCanFinish(c, s', answers);
      Chain(c, s, s', mid, Orderly(answers));
      s' := mid;
    }
    s' := RepairsThenStop(c, s, s', answers);
    ReachableBy(c, s, s', Orderly(answers));
    ReachableInv(c, s');
    NothingIsHeldAtTheEnd(c, s');
  }

  /** The books of a shut-down runtime. */
  lemma NothingIsHeldAtTheEnd(c: Config, s: State)
    requires ShutDown(s) && StreamBooks(s) && PipeInv(c, s.pipe, s.stop)
    ensures multiset(s.socket.fates.received) == multiset(s.socket.fates.put) + multiset(Gone(s.socket))
    ensures TradesOf(s.socket.fates.put) == FromStream(Produced(s.pipe.sinkOps))
  {
    assert HeldUp(s.socket) == [] && Unobserved(s.socket) == [];
  }

  /** The trades that went with a cancelled pump before. */
  function Gone(k: Socket): seq<Seen> { k.fates.lost + k.fates.unread }

  lemma ReachableBy(c: Config, s: State, s': State, allowed: Step -> bool)
    requires Reachable(c, s) && LeadsTo(c, s, s', allowed)
    ensures Reachable(c, s')
  {
    var a :| IsRun(c, START, a) && Exec(c, START, a) == s;
    var b :| IsRun(c, s, b) && Only(b, allowed) && Exec(c, s, b) == s';
    RunAppend(c, START, a, b);
  }

  lemma RepairsThenStop(c: Config, s: State, mid: State, answers: Answers) returns (s': State)
    requires Reachable(c, s) && LeadsTo(c, s, mid, Orderly(answers)) && Draining(mid) && AllRepairs(answers)
    requires mid.socket.phase.Pumping? ==> mid.socket.phase == Pumping([], None)
    ensures LeadsTo(c, s, s', Orderly(answers)) && ShutDown(s') && s'.socket.fates == mid.socket.fates
  {
    ReachableBy(c, s, mid, Orderly(answers));
    ReachableInv(c, mid);
    s' := RepairsCanFinish(c, mid, answers);
    Chain(c, s, mid, s', Orderly(answers));
    var before := QueueCanEmpty(c, s', answers);
    Chain(c, s, s', before, Orderly(answers));
    s' := Next(c, s, before, SetStop, Orderly(answers));
    var ended := LoopCanEnd(c, s', answers);
    Chain(c, s, s', ended, Orderly(answers));
    ReachableBy(c, s, ended, Orderly(answers));
    ReachableInv(c, ended);
    s' := Next(c, s, ended, DrainIdle(true, true), Orderly(answers));
    IdleExit(c, ended.pipe, true, true, true);
  }

  function Repaired(id: int): Trade { BinanceTrade(id).(source := RestRepair) }

  /** It can hang: drain returns while a repair is being fetched, and the repair comes back with more trades than
      the queue has room for. `run` waits for that task, and no continuation ends it. */
  lemma ShutdownCanHang() returns (s: State)
    ensures Reachable(BINANCE, s) && s.stop && s.socket.phase.Ended? && s.pipe.drain.Returned?
    ensures 0 in s.repairs.tasks && !CanFinishRepair(BINANCE, s, 0)
  {
    s := AfterGap(4);
    s := After(BINANCE, s, SetStop);
    s := After(BINANCE, s, CancelPump(true));
    s := After(BINANCE, s, LoopCheck);
    s := After(BINANCE, s, DrainIdle(true, true));
    s := After(BINANCE, s, RepairReply(0, [Repaired(2), Repaired(3)]));
    RepairFinishesExactlyWhen(BINANCE, s, 0);
  }
}
