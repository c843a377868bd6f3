/** The bounded per-topic queue and its two saturation policies (ingest/core/queue.py). */
module TopicQueue {
  import opened Prelude

  datatype DropPolicy = Block | DropOldest

  /** asyncio.Queue treats a maxsize of zero or less as "no bound". */
  predicate HasRoom(size: nat, maxsize: int) { maxsize <= 0 || size < maxsize }

  class BoundedTopicQueue<T> {
    const maxsize: int
    const policy: DropPolicy
    var items: seq<T>
    var dropped: nat

    predicate Valid()
      reads this
    {
      && (maxsize > 0 ==> |items| <= maxsize)
      && (policy.Block? ==> dropped == 0)
    }

    constructor (maxsize: int, policy: DropPolicy)
      ensures Valid() && items == [] && dropped == 0
      ensures this.maxsize == maxsize && this.policy == policy
    {
      this.maxsize, this.policy, items, dropped := maxsize, policy, [], 0;
    }

    method PutNowait(item: T) returns (ok: bool)
      requires Valid()
      modifies this`items
      ensures Valid()
      ensures ok == HasRoom(|old(items)|, maxsize)
      ensures items == if ok then old(items) + [item] else old(items)
    {
      ok := HasRoom(|items|, maxsize);
      if ok {
        items := items + [item];
      }
    }

    method GetNowait() returns (item: Option<T>)
      requires Valid()
      modifies this`items
      ensures Valid()
      ensures old(items) == [] ==> item.None? && items == []
      ensures old(items) != [] ==> item == Some(old(items)[0]) && items == old(items)[1..]
    {
      if items == [] {
        return None;
      }
      item := Some(items[0]);
      items := items[1..];
    }

    /** `put` up to its first suspension. Under BLOCK it reports that the caller has to wait; under
        DROP_OLDEST it always succeeds, evicting from the front until the item fits. */
    method Put(item: T) returns (done: bool)
      requires Valid()
      modifies this`items, this`dropped
      ensures Valid()
      ensures (items, dropped, done) == PutStep(old(items), old(dropped), maxsize, policy, item)
    {
      if policy.Block? {
        done := PutNowait(item);
        return;
      }
      var evicted: nat := 0;
      done := false;
      while !done
        invariant Valid() && evicted <= 1 && dropped == old(dropped) + evicted
        invariant evicted == 1 ==> !HasRoom(|old(items)|, maxsize)
        invariant !done ==> items == old(items)[evicted..]
        invariant done ==> items == old(items)[evicted..] + [item] && (evicted == 1 || HasRoom(|old(items)|, maxsize))
        decreases !done, |items|
      {
        done := PutNowait(item);
        if !done {
          var victim := GetNowait();
          if victim.Some? {
            dropped, evicted := dropped + 1, evicted + 1;
          }
        }
      }
    }
  }

  function PutStep<T>(items: seq<T>, dropped: nat, maxsize: int, policy: DropPolicy, item: T): (seq<T>, nat, bool)
    requires maxsize > 0 ==> |items| <= maxsize
  {
    if HasRoom(|items|, maxsize) then (items + [item], dropped, true)
    else if policy.Block? then (items, dropped, false)
    else (items[1..] + [item], dropped + 1, true)
  }

  // Whole histories of a queue.

  datatype Op<T> = Put(item: T) | Get

  /** A queue with its past: what was accepted, and what has left it in order of leaving, each entry
      marked with whether it was handed to a reader or evicted. */
  datatype Past<T> = Past(items: seq<T>, dropped: nat, accepted: seq<T>, left: seq<(T, bool)>)

  function OneOp<T>(p: Past<T>, maxsize: int, policy: DropPolicy, op: Op<T>): Past<T>
    requires maxsize > 0 ==> |p.items| <= maxsize
  {
    match op
    case Get => if p.items == [] then p else p.(items := p.items[1..], left := p.left + [(p.items[0], true)])
    case Put(item) =>
      var (items, dropped, done) := PutStep(p.items, p.dropped, maxsize, policy, item);
      Past(items, dropped, if done then p.accepted + [item] else p.accepted,
           if dropped == p.dropped then p.left else p.left + [(p.items[0], false)])
  }

  function After<T>(maxsize: int, policy: DropPolicy, ops: seq<Op<T>>): (p: Past<T>)
    ensures maxsize > 0 ==> |p.items| <= maxsize
  {
    if ops == [] then Past([], 0, [], []) else
      OneOp(After(maxsize, policy, ops[..|ops| - 1]), maxsize, policy, ops[|ops| - 1])
  }

  function Leavers<T>(left: seq<(T, bool)>): seq<T> { seq(|left|, i requires 0 <= i < |left| => left[i].0) }

  function Evictions<T>(left: seq<(T, bool)>): nat
  {
    if left == [] then 0 else Evictions(left[..|left| - 1]) + if left[|left| - 1].1 then 0 else 1
  }

  lemma EvictionsSnoc<T>(left: seq<(T, bool)>, x: (T, bool))
    ensures Evictions(left + [x]) == Evictions(left) + if x.1 then 0 else 1
  {
    assert (left + [x])[..|left|] == left;
  }

  predicate Balanced<T(==)>(p: Past<T>, policy: DropPolicy)
  {
    && Leavers(p.left) + p.items == p.accepted
    && Evictions(p.left) == p.dropped
    && (policy.Block? ==> p.dropped == 0)
  }

  lemma LeavingInOrder<T>(left: seq<(T, bool)>, items: seq<T>, delivered: bool)
    requires items != []
    ensures Leavers(left + [(items[0], delivered)]) + items[1..] == Leavers(left) + items
  {
    assert Leavers(left + [(items[0], delivered)]) == Leavers(left) + [items[0]];
  }

  lemma BalancedStep<T>(p: Past<T>, maxsize: int, policy: DropPolicy, op: Op<T>)
    requires maxsize > 0 ==> |p.items| <= maxsize
    requires Balanced(p, policy)
    ensures Balanced(OneOp(p, maxsize, policy, op), policy)
  {
    match op
    case Get =>
      if p.items != [] {
        LeavingInOrder(p.left, p.items, true);
        EvictionsSnoc(p.left, (p.items[0], true));
      }
    case Put(item) =>
      if HasRoom(|p.items|, maxsize) {
        assert Leavers(p.left) + (p.items + [item]) == (Leavers(p.left) + p.items) + [item];
      } else if policy.DropOldest? {
        LeavingInOrder(p.left, p.items, false);
        EvictionsSnoc(p.left, (p.items[0], false));
        var left, kept := p.left + [(p.items[0], false)], p.items[1..];
        assert Leavers(left) + (kept + [item]) == (Leavers(left) + kept) + [item];
      }
  }

  /** Over every history and under both policies, nothing accepted vanishes or overtakes: what left the
      queue, followed by what is in it, is exactly what was accepted. Every departure is a delivery or a
      counted eviction, and under BLOCK there are no evictions at all. */
  lemma {:induction false} QueueConserves<T>(maxsize: int, policy: DropPolicy, ops: seq<Op<T>>)
    ensures Balanced(After(maxsize, policy, ops), policy)
  {
    if ops != [] {
      QueueConserves(maxsize, policy, ops[..|ops| - 1]);
      BalancedStep(After(maxsize, policy, ops[..|ops| - 1]), maxsize, policy, ops[|ops| - 1]);
    }
  }

  function PutsOf<T>(ops: seq<Op<T>>): seq<T>
  {
    if ops == [] then [] else
      match ops[|ops| - 1]
      case Get => PutsOf(ops[..|ops| - 1])
      case Put(item) => PutsOf(ops[..|ops| - 1]) + [item]
  }

  /** Under DROP_OLDEST no put is ever refused, so the queue always holds the newest of all items put. */
  lemma {:induction false} DropOldestKeepsNewest<T>(maxsize: int, ops: seq<Op<T>>)
    ensures var p := After(maxsize, DropOldest, ops);
            && p.accepted == PutsOf(ops)
            && |p.items| <= |PutsOf(ops)|
            && p.items == PutsOf(ops)[|PutsOf(ops)| - |p.items|..]
  {
    if ops != [] {
      DropOldestKeepsNewest(maxsize, ops[..|ops| - 1]);
    }
    QueueConserves(maxsize, DropOldest, ops);
  }

  /** What a history has put in and not taken out. */
  function Held<T>(p: Past<T>): int { |p.accepted| - |p.left| }

  /** A put waits, or evicts, exactly when the queue holds as many items as it may: under BLOCK it is accepted
      unless `maxsize` items are held, and under DROP_OLDEST it is always accepted and evicts the oldest item
      exactly then. */
  lemma {:induction false} FullExactlyWhen<T>(maxsize: int, policy: DropPolicy, ops: seq<Op<T>>, item: T)
    ensures var before, after := After(maxsize, policy, ops), After(maxsize, policy, ops + [Put(item)]);
            var full := 0 < maxsize == Held(before);
            && |before.items| == Held(before)
            && (policy.Block? ==> after == if full then before else before.(items := before.items + [item], accepted := before.accepted + [item]))
            && (policy.DropOldest? ==> after.accepted == before.accepted + [item])
            && (policy.DropOldest? ==> after.left == if full then before.left + [(before.items[0], false)] else before.left)
  {
    QueueConserves(maxsize, policy, ops);
    assert (ops + [Put(item)])[..|ops|] == ops;
    var before := After(maxsize, policy, ops);
    assert |Leavers(before.left) + before.items| == |before.accepted|;
  }
}
