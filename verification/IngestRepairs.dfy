/** What becomes of the trades that repairs bring back (ingest/runner.py, `_repair`). */
module IngestRepairs {
  import opened Prelude
  import opened Gaps
  import opened IngestProtocol

  /** The puts repair tasks make along a run: which task, and which trade. */
  function Puts(c: Config, s: State, steps: seq<Step>): seq<(nat, Trade)>
    requires Inv(c, s) && IsRun(c, s, steps)
    decreases |steps|
  {
    if steps == [] then [] else
      StepKeepsInv(c, s, steps[0]);
      PutOf(s, steps[0]) + Puts(c, Apply(c, s, steps[0]), steps[1..])
  }

  /** The put a step makes for a repair task. */
  function PutOf(s: State, step: Step): seq<(nat, Trade)>
  {
    if step.RepairPut? && Carried(s, step.id) != [] then [(step.id, Carried(s, step.id)[0])] else []
  }

  function TradesIn(puts: seq<(nat, Trade)>): seq<Trade> { seq(|puts|, i requires 0 <= i < |puts| => puts[i].1) }

  /** The trades task `id` put, in order. */
  function PutBy(puts: seq<(nat, Trade)>, id: nat): seq<Trade>
  {
    if puts == [] then [] else (if puts[0].0 == id then [puts[0].1] else []) + PutBy(puts[1..], id)
  }

  /** What the repair of report `id` came back with along a run. */
  function RepliesTo(steps: seq<Step>, id: nat): seq<Trade>
  {
    if steps == [] then [] else ReplyOf(steps[0], id) + RepliesTo(steps[1..], id)
  }

  function ReplyOf(step: Step, id: nat): seq<Trade> { if step.RepairReply? && step.id == id then step.reply else [] }

  /** What the task still has to put. */
  function Carried(s: State, id: nat): seq<Trade>
  {
    if id in s.repairs.tasks && s.repairs.tasks[id].Putting? then s.repairs.tasks[id].rest else []
  }

  predicate IsRepair(t: Trade) { t.source.RestRepair? }

  function FromRepair(trades: seq<Trade>): seq<Trade> { Filter(trades, IsRepair) }

  lemma FromRepairSnoc(trades: seq<Trade>, t: Trade)
    ensures FromRepair(trades + [t]) == if t.source.RestRepair? then FromRepair(trades) + [t] else FromRepair(trades)
  {
    FilterSnoc(trades, t, IsRepair);
  }

  /** Steps other than a task's reply and its puts leave what it carries alone. */
  lemma OthersLeaveCarried(c: Config, s: State, step: Step, id: nat)
    requires forall i <- s.repairs.tasks :: i < |s.watch.reports|
    requires Enabled(c, s, step) && !step.RepairReply? && !step.RepairPut?
    ensures Carried(Apply(c, s, step), id) == Carried(s, id)
  {
  }

  lemma PutLeavesRest(c: Config, s: State, step: Step, id: nat)
    requires Enabled(c, s, step) && step.RepairPut?
    ensures Carried(s, id) == PutBy(PutOf(s, step), id) + Carried(Apply(c, s, step), id)
  {
    var rest, put := s.repairs.tasks[step.id].rest, PutOf(s, step);
    assert put[1..] == [] && rest == [rest[0]] + rest[1..];
    assert PutBy(put, id) == if step.id == id then [rest[0]] else [];
  }

  /** One step hands a task's trades from its reply to its hands, and from there to the queue, in order. */
  lemma CarriedStep(c: Config, s: State, step: Step, id: nat)
    requires RepairInv(s.watch.reports, s.repairs, s.pipe.accepted) && Enabled(c, s, step)
    ensures Carried(s, id) + ReplyOf(step, id) == PutBy(PutOf(s, step), id) + Carried(Apply(c, s, step), id)
  {
    if step.RepairPut? {
      PutLeavesRest(c, s, step, id);
    } else if !step.RepairReply? {
      OthersLeaveCarried(c, s, step, id);
    }
  }

  /** Only three kinds of step put something. */
  lemma OthersAcceptNothing(c: Config, s: State, step: Step)
    requires Enabled(c, s, step) && !step.ObserveNext? && !step.UnblockPump? && !step.RepairPut?
    ensures Apply(c, s, step).pipe.accepted == s.pipe.accepted
  {
  }

  lemma PumpPutsNoRepair(c: Config, s: State, step: Step)
    requires SocketInv(s.socket, s.stop) && Enabled(c, s, step) && (step.ObserveNext? || step.UnblockPump?)
    ensures FromRepair(Apply(c, s, step).pipe.accepted) == FromRepair(s.pipe.accepted)
  {
    if step.ObserveNext? {
      assert s.socket.phase.frame[0] in s.socket.phase.frame;
      FromRepairSnoc(s.pipe.accepted, s.socket.phase.frame[0]);
    } else {
      FromRepairSnoc(s.pipe.accepted, s.socket.phase.blocked.value);
    }
  }

  lemma RepairPutIsAccepted(c: Config, s: State, step: Step)
    requires RepairInv(s.watch.reports, s.repairs, s.pipe.accepted) && Enabled(c, s, step) && step.RepairPut?
    ensures FromRepair(Apply(c, s, step).pipe.accepted) == FromRepair(s.pipe.accepted) + TradesIn(PutOf(s, step))
  {
    var t := s.repairs.tasks[step.id].rest[0];
    assert t in s.repairs.tasks[step.id].rest;
    FromRepairSnoc(s.pipe.accepted, t);
    assert TradesIn(PutOf(s, step)) == [t];
  }

  lemma AcceptedStep(c: Config, s: State, step: Step)
    requires SocketInv(s.socket, s.stop) && RepairInv(s.watch.reports, s.repairs, s.pipe.accepted) && Enabled(c, s, step)
    ensures FromRepair(Apply(c, s, step).pipe.accepted) == FromRepair(s.pipe.accepted) + TradesIn(PutOf(s, step))
  {
    if step.RepairPut? {
      RepairPutIsAccepted(c, s, step);
    } else {
      assert TradesIn(PutOf(s, step)) == [];
      if step.ObserveNext? || step.UnblockPump? {
        PumpPutsNoRepair(c, s, step);
      } else {
        OthersAcceptNothing(c, s, step);
      }
    }
  }

  lemma {:induction false} PutByAppend(a: seq<(nat, Trade)>, b: seq<(nat, Trade)>, id: nat)
    ensures PutBy(a + b, id) == PutBy(a, id) + PutBy(b, id)
  {
    if a == [] {
      assert a + b == b;
    } else {
      PutByAppend(a[1..], b, id);
      assert (a + b)[1..] == a[1..] + b;
      AppendAssociates(if a[0].0 == id then [a[0].1] else [], PutBy(a[1..], id), PutBy(b, id));
    }
  }

  lemma HandedOn<T>(before: seq<T>, reply: seq<T>, put: seq<T>, mid: seq<T>, replies: seq<T>, puts: seq<T>, after: seq<T>)
    requires before + reply == put + mid && mid + replies == puts + after
    ensures before + (reply + replies) == (put + puts) + after
  {
    AppendAssociates(before, reply, replies);
    assert (put + mid) + replies == put + (mid + replies);
  }

  /** Along every run, what a task had to put and what its repair came back with is what it put, in order,
      followed by what it still has to put. */
  lemma {:induction false} TasksPutWhatTheyGot(c: Config, s: State, steps: seq<Step>, id: nat)
    requires Inv(c, s) && IsRun(c, s, steps)
    ensures Carried(s, id) + RepliesTo(steps, id) == PutBy(Puts(c, s, steps), id) + Carried(Exec(c, s, steps), id)
    decreases |steps|
  {
    if steps == [] {
      assert Carried(s, id) + [] == [] + Carried(s, id);
    } else {
      var step, mid := steps[0], Apply(c, s, steps[0]);
      StepKeepsInv(c, s, step);
      TasksPutWhatTheyGot(c, mid, steps[1..], id);
      CarriedStep(c, s, step, id);
      PutByAppend(PutOf(s, step), Puts(c, mid, steps[1..]), id);
      HandedOn(Carried(s, id), ReplyOf(step, id), PutBy(PutOf(s, step), id), Carried(mid, id), RepliesTo(steps[1..], id),
               PutBy(Puts(c, mid, steps[1..]), id), Carried(Exec(c, s, steps), id));
    }
  }

  lemma {:induction false} PutsAreAccepted(c: Config, s: State, steps: seq<Step>)
    requires Inv(c, s) && IsRun(c, s, steps)
    ensures FromRepair(Exec(c, s, steps).pipe.accepted) == FromRepair(s.pipe.accepted) + TradesIn(Puts(c, s, steps))
    decreases |steps|
  {
    if steps == [] {
      assert FromRepair(s.pipe.accepted) + [] == FromRepair(s.pipe.accepted);
    } else {
      var step, mid := steps[0], Apply(c, s, steps[0]);
      StepKeepsInv(c, s, step);
      PutsAreAccepted(c, mid, steps[1..]);
      AcceptedStep(c, s, step);
      MorePuts(PutOf(s, step), Puts(c, mid, steps[1..]));
      AppendAssociates(FromRepair(s.pipe.accepted), TradesIn(PutOf(s, step)), TradesIn(Puts(c, mid, steps[1..])));
    }
  }

  lemma MorePuts(a: seq<(nat, Trade)>, b: seq<(nat, Trade)>)
    ensures TradesIn(a + b) == TradesIn(a) + TradesIn(b)
  {
  }

  /** Repaired trades are put exactly once. In every run, what each repair came back with is what its task put, in
      order, followed by what it still has to put; and the repaired part of what the queue accepted is those
      puts, in order. */
  lemma RepairedTradesArePutOnce(c: Config, steps: seq<Step>, id: nat)
    requires IsRun(c, START, steps)
    ensures Inv(c, START)
    ensures RepliesTo(steps, id) == PutBy(Puts(c, START, steps), id) + Carried(Exec(c, START, steps), id)
    ensures FromRepair(Exec(c, START, steps).pipe.accepted) == TradesIn(Puts(c, START, steps))
  {
    StartInv(c);
    TasksPutWhatTheyGot(c, START, steps, id);
    PutsAreAccepted(c, START, steps);
    assert Carried(START, id) == [] && [] + RepliesTo(steps, id) == RepliesTo(steps, id);
    assert FromRepair([]) == [] && [] + TradesIn(Puts(c, START, steps)) == TradesIn(Puts(c, START, steps));
  }
}
