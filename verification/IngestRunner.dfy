/** IngestRunner itself (ingest/runner.py): the object whose methods perform the steps of the protocol.

    Each method is the code one coroutine runs between two suspension points. It changes the tracker, the
    queue and the set of repair tasks in place, and is proved to take exactly the protocol step named in its
    contract, so the safety results hold of every state the object can be in. */
module IngestRunner {
  import opened Prelude
  import opened Gaps
  import opened TopicQueue
  import P = IngestProtocol

  /** The steps of a frame of which `n` trades are handled, after its arrival. */
  function Observes(n: nat): seq<P.Step> { if n == 0 then [] else Observes(n - 1) + [P.ObserveNext] }

  class Runner {
    const cfg: P.Config
    var tracker: SequenceTracker
    const queue: BoundedTopicQueue<P.Trade>
    var repairTasks: map<nat, P.RepairTask>
    var started: nat                // gaps handed to a repair task so far; names the next task
    ghost var state: P.State

    ghost predicate Valid()
      reads this, tracker, queue
    {
      && P.Reachable(cfg, state)
      && tracker.watermarks == state.watch.marks
      && queue.Valid() && queue.policy.Block? && queue.maxsize == cfg.maxsize && queue.items == state.pipe.queue
      && repairTasks == state.repairs.tasks && started == |state.watch.reports|
    }

    constructor (cfg: P.Config)
      ensures Valid() && this.cfg == cfg && state == P.START && fresh(tracker) && fresh(queue)
    {
      this.cfg := cfg;
      tracker := new SequenceTracker();
      queue := new BoundedTopicQueue(cfg.maxsize, Block);
      repairTasks, started, state := map[], 0, P.START;
      new;
      assert P.IsRun(cfg, P.START, []) && P.Exec(cfg, P.START, []) == P.START;
    }

    /** One turn of handle_message's loop: observe, start a repair for a gap, put. `done` is false when the
        put has to wait for room. */
    method HandleTrade(trade: P.Trade) returns (done: bool)
      requires Valid() && P.Enabled(cfg, state, P.ObserveNext) && state.socket.phase.frame[0] == trade
      modifies this, tracker, queue
      ensures Valid() && tracker == old(tracker)
      ensures state == P.Apply(cfg, old(state), P.ObserveNext)
      ensures done == state.socket.phase.blocked.None?
    {
      P.ReachStep(cfg, state, P.ObserveNext);
      var gap := tracker.Observe(P.ObservationOf(cfg, trade));
      if gap.Some? {
        repairTasks, started := repairTasks[started := P.Fetching], started + 1;
      }
      done := queue.Put(trade);
      state := P.Apply(cfg, state, P.ObserveNext);
    }

    /** handle_message from the arrival of a frame to its end or to the first put that has to wait. */
    method HandleMessage(trades: seq<P.Trade>) returns (handled: nat, ghost steps: seq<P.Step>)
      requires Valid() && P.Enabled(cfg, state, P.Frame(trades))
      modifies this, tracker, queue
      ensures Valid() && tracker == old(tracker)
      ensures handled <= |trades| && steps == [P.Frame(trades)] + Observes(handled)
      ensures P.IsRun(cfg, old(state), steps) && state == P.Exec(cfg, old(state), steps)
      ensures handled == |trades|
              || (handled > 0 && state.socket.phase == P.Pumping(trades[handled..], Some(trades[handled - 1])))
    {
      ghost var before := state;
      P.ReachStep(cfg, state, P.Frame(trades));
      state := P.Apply(cfg, state, P.Frame(trades));
      handled, steps := 0, [P.Frame(trades)];
      P.RunSnoc(cfg, before, [], P.Frame(trades));
      var done := true;
      while handled < |trades| && done
        invariant Valid() && tracker == old(tracker) && handled <= |trades|
        invariant steps == [P.Frame(trades)] + Observes(handled)
        invariant P.IsRun(cfg, before, steps) && state == P.Exec(cfg, before, steps)
        invariant !done ==> handled > 0
        invariant state.socket.phase
                  == P.Pumping(trades[handled..], if done then None else Some(trades[handled - 1]))
        decreases |trades| - handled
      {
        P.RunSnoc(cfg, before, steps, P.ObserveNext);
        AppendAssociates([P.Frame(trades)], Observes(handled), [P.ObserveNext]);
        done := HandleTrade(trades[handled]);
        handled, steps := handled + 1, steps + [P.ObserveNext];
      }
    }

    /** The pump's waiting put resumes once there is room. */
    method ResumePut(trade: P.Trade)
      requires Valid() && P.Enabled(cfg, state, P.UnblockPump) && state.socket.phase.blocked == Some(trade)
      modifies this`state, queue
      ensures Valid() && state == P.Apply(cfg, old(state), P.UnblockPump)
    {
      P.ReachStep(cfg, state, P.UnblockPump);
      var done := queue.Put(trade);
      state := P.Apply(cfg, state, P.UnblockPump);
    }

    /** A repair task gets its answer: trades to put, or an exception that is logged and forgotten. */
    method RepairAnswered(id: nat, answer: Option<seq<P.Trade>>)
      requires Valid() && id in repairTasks && repairTasks[id].Fetching?
      requires answer.Some? ==> P.AllFrom(answer.value, P.RestRepair)
      modifies this
      ensures Valid() && tracker == old(tracker)
      ensures state == P.Apply(cfg, old(state), if answer.Some? then P.RepairReply(id, answer.value) else P.RepairFail(id))
    {
      ghost var step := if answer.Some? then P.RepairReply(id, answer.value) else P.RepairFail(id);
      P.ReachStep(cfg, state, step);
      if answer.Some? && answer.value != [] {
        repairTasks := repairTasks[id := P.Putting(answer.value)];
      } else {
        repairTasks := repairTasks - {id};
      }
      state := P.Apply(cfg, state, step);
    }

    /** One put of a repair task; the task is discarded after its last. */
    method RepairPuts(id: nat)
      requires Valid() && P.Enabled(cfg, state, P.RepairPut(id))
      modifies this, queue
      ensures Valid() && tracker == old(tracker) && state == P.Apply(cfg, old(state), P.RepairPut(id))
    {
      P.ReachStep(cfg, state, P.RepairPut(id));
      var rest := repairTasks[id].rest;
      var done := queue.Put(rest[0]);
      repairTasks := if |rest| == 1 then repairTasks - {id} else repairTasks[id := P.Putting(rest[1..])];
      state := P.Apply(cfg, state, P.RepairPut(id));
    }

    /** handle_reconnect: a connection-scoped sequence starts over with a new tracker. */
    method HandleReconnect()
      requires Valid() && P.Enabled(cfg, state, P.Subscribe(true)) && state.socket.hasConnected
      modifies this
      ensures Valid() && state == P.Apply(cfg, old(state), P.Subscribe(true))
      ensures if cfg.resetsOnReconnect then fresh(tracker) && tracker.watermarks == map[] else tracker == old(tracker)
    {
      P.ReachStep(cfg, state, P.Subscribe(true));
      if cfg.resetsOnReconnect {
        tracker := new SequenceTracker();
      }
      state := P.Apply(cfg, state, P.Subscribe(true));
    }

    /** One turn of drain's loop on a non-empty queue: get, produce, poll, and the loop test. The sink's
        behaviour is the `outcome`; `leave` says that drain flushes and stops looping. */
    method DrainTurn(outcome: P.TakeOutcome, flushOk: bool, stopIsSet: bool) returns (trade: Option<P.Trade>, leave: bool)
      requires Valid() && P.Enabled(cfg, state, P.DrainTake(outcome, flushOk)) && stopIsSet == state.stop
      modifies this`state, queue
      ensures Valid() && state == P.Apply(cfg, old(state), P.DrainTake(outcome, flushOk))
      ensures trade == Some(old(queue.items)[0])
      ensures leave <==> outcome.Published? && !state.pipe.drain.Waiting?
    {
      P.ReachStep(cfg, state, P.DrainTake(outcome, flushOk));
      trade := queue.GetNowait();
      leave := outcome.Published? && stopIsSet && |queue.items| == 0;
      state := P.Apply(cfg, state, P.DrainTake(outcome, flushOk));
    }
  }
}
