/** KinesisSink (awsnative/sink.py): batched sends, positional retry of partial failures, and a raise when
    retries run out.

    The client is an adversary: any function from the number of the request and its records to an answer.
    The value-level functions give the meaning of each operation; the class Sink performs it in place. */
module KinesisSink {
  import opened Prelude
  import opened KinesisBatching

  /** What put_records does: raise, or report a failure count and, by position, which records carry an error code. */
  datatype Response = Raised | Reply(failedCount: int, errors: seq<bool>)

  type Client = (nat, seq<Record>) -> Response

  datatype Settings = Settings(caps: Caps, maxAttempts: int, client: Client)

  /** One request and the records its answer acknowledged. */
  datatype Attempt = Attempt(sent: seq<Record>, acked: seq<Record>)

  /** The records whose position carries the wanted flag; positions beyond either list are ignored. */
  function Marked(records: seq<Record>, errors: seq<bool>, wanted: bool): seq<Record>
  {
    if records == [] || errors == [] then []
    else if errors[0] == wanted then [records[0]] + Marked(records[1..], errors[1..], wanted)
    else Marked(records[1..], errors[1..], wanted)
  }

  /** The requests made for one batch, and the sink's verdict: a count, or the records named by the raise. */
  datatype Delivery = Delivery(log: seq<Attempt>, result: Result<nat, seq<Record>>)

  /** `_send_with_retry` from the point where `pending` of `records` remain and `attempts` are left; `n` is
      the number of the next request. */
  function Deliver(client: Client, n: nat, records: seq<Record>, pending: seq<Record>, attempts: int): Delivery
    decreases if attempts < 0 then 0 else attempts
  {
    if attempts <= 0 then Delivery([], Err(pending)) else
      match client(n, pending)
      case Raised => Delivery([Attempt(pending, [])], Err(pending))
      case Reply(failedCount, errors) =>
        if failedCount == 0 then Delivery([Attempt(pending, pending)], Ok(|pending|)) else
        var first := Attempt(pending, Marked(pending, errors, false));
        var again := Marked(pending, errors, true);
        if again == [] then Delivery([first], Ok(|records|)) else
        var later := Deliver(client, n + 1, records, again, attempts - 1);
        Delivery([first] + later.log, later.result)
  }

  /** The sink, everything it was given, every request it made, and the records its raises have named. */
  datatype World = World(buffer: seq<Record>, bufferedBytes: int,
                         produced: seq<Record>, log: seq<Attempt>, stranded: seq<Record>)

  const EMPTY := World([], 0, [], [], [])

  type Verdict = Result<nat, seq<Record>>

  function ProduceSpec(w: World, r: Record): World
  {
    w.(buffer := w.buffer + [r], bufferedBytes := w.bufferedBytes + |r.data|, produced := w.produced + [r])
  }

  /** The batch `_send_all` takes next. */
  function NextBatch(p: Settings, w: World): seq<Record>
    requires w.buffer != []
  {
    w.buffer[..BatchLength(p.caps, w.buffer)]
  }

  function BatchDelivery(p: Settings, w: World): Delivery
    requires w.buffer != []
  {
    Deliver(p.client, |w.log|, NextBatch(p, w), NextBatch(p, w), p.maxAttempts)
  }

  /** The sink once that batch has been taken off the buffer and its requests have been made. */
  function AfterBatch(p: Settings, w: World): (after: World)
    requires w.buffer != []
    ensures |after.buffer| < |w.buffer|
  {
    var rest := w.buffer[BatchLength(p.caps, w.buffer)..];
    w.(buffer := rest, bufferedBytes := Bytes(rest), log := w.log + BatchDelivery(p, w).log)
  }

  function SendAllSpec(p: Settings, w: World): (World, Verdict)
    decreases |w.buffer|
  {
    if w.buffer == [] then (w, Ok(0)) else
      match BatchDelivery(p, w).result
      case Err(pending) => (AfterBatch(p, w).(stranded := w.stranded + pending), Err(pending))
      case Ok(count) =>
        var (end, rest) := SendAllSpec(p, AfterBatch(p, w));
        (end, if rest.Ok? then Ok(count + rest.value) else rest)
  }

  predicate AtThreshold(p: Settings, w: World)
  {
    |w.buffer| >= p.caps.maxBatch || w.bufferedBytes >= p.caps.maxBytes
  }

  function PollSpec(p: Settings, w: World): (World, Verdict)
  {
    if AtThreshold(p, w) then SendAllSpec(p, w) else (w, Ok(0))
  }

  function FlushSpec(p: Settings, w: World): (World, Verdict)
  {
    var (after, verdict) := SendAllSpec(p, w);
    (after, if verdict.Ok? then Ok(|after.buffer|) else verdict)
  }

  class Sink {
    const settings: Settings
    var buffer: seq<Record>
    var bufferedBytes: int
    var requests: nat              // answers the client has been asked for so far
    ghost var produced: seq<Record>
    ghost var log: seq<Attempt>
    ghost var stranded: seq<Record>

    ghost function View(): World
      reads this
    {
      World(buffer, bufferedBytes, produced, log, stranded)
    }

    ghost predicate Valid()
      reads this
    {
      requests == |log|
    }

    constructor (settings: Settings)
      ensures Valid() && View() == EMPTY && this.settings == settings
    {
      this.settings := settings;
      buffer, bufferedBytes, requests, produced, log, stranded := [], 0, 0, [], [], [];
    }

    method Produce(data: seq<bv8>, partitionKey: string)
      requires Valid()
      modifies this
      ensures Valid() && View() == ProduceSpec(old(View()), Record(data, partitionKey))
    {
      buffer := buffer + [Record(data, partitionKey)];
      bufferedBytes := bufferedBytes + |data|;
      produced := produced + [Record(data, partitionKey)];
    }

    method TakeBatch() returns (batch: seq<Record>, rest: seq<Record>)
      requires buffer != []
      ensures var n := BatchLength(settings.caps, buffer); batch == buffer[..n] && rest == buffer[n..]
    {
      batch := [];
      var size: nat := 0;
      for index := 0 to |buffer|
        invariant batch == buffer[..index] && size == Bytes(batch)
        invariant index > 0 ==> BatchLength(settings.caps, buffer) == Grow(settings.caps, buffer, index)
      {
        var record := buffer[index];
        assert buffer[..index + 1] == batch + [record];
        BytesSnoc(batch, record);
        if batch != [] && (|batch| >= settings.caps.maxBatch || size + |record.data| > settings.caps.maxBytes) {
          return batch, buffer[index..];
        }
        batch := batch + [record];
        size := size + |record.data|;
      }
      rest := [];
    }

    method PutRecords(records: seq<Record>) returns (response: Response)
      modifies this`requests
      ensures response == settings.client(old(requests), records) && requests == old(requests) + 1
    {
      response := settings.client(requests, records);
      requests := requests + 1;
    }

    method SendWithRetry(records: seq<Record>) returns (verdict: Verdict)
      requires Valid()
      modifies this`requests, this`log
      ensures Valid()
      ensures var delivery := Deliver(settings.client, |old(log)|, records, records, settings.maxAttempts);
              log == old(log) + delivery.log && verdict == delivery.result
    {
      var pending, attempt := records, 0;
      ghost var whole := Deliver(settings.client, |log|, records, records, settings.maxAttempts);
      while attempt < settings.maxAttempts
        invariant Valid()
        invariant var later := Deliver(settings.client, |log|, records, pending, settings.maxAttempts - attempt);
                  old(log) + whole.log == log + later.log && whole.result == later.result
        decreases settings.maxAttempts - attempt
      {
        ghost var later := Deliver(settings.client, |log|, records, pending, settings.maxAttempts - attempt);
        var response := PutRecords(pending);
        if response.Raised? {
          log := log + [Attempt(pending, [])];
          return Err(pending);
        }
        if response.failedCount == 0 {
          log := log + [Attempt(pending, pending)];
          return Ok(|pending|);
        }
        ghost var first := Attempt(pending, Marked(pending, response.errors, false));
        pending := Marked(pending, response.errors, true);
        ghost var before := log;
        log := log + [first];
        if pending == [] {
          return Ok(|records|);
        }
        assert before + later.log == log + later.log[1..];
        attempt := attempt + 1;
      }
      verdict := Err(pending);
    }

    /** One turn of the loop of _send_all. */
    method SendBatch() returns (verdict: Verdict)
      requires Valid() && buffer != []
      modifies this
      ensures Valid() && verdict == BatchDelivery(settings, old(View())).result
      ensures var after := AfterBatch(settings, old(View()));
              View() == if verdict.Ok? then after else after.(stranded := old(stranded) + verdict.error)
    {
      var batch, rest := TakeBatch();
      buffer := rest;
      bufferedBytes := Bytes(rest);
      verdict := SendWithRetry(batch);
      if verdict.Err? {
        stranded := stranded + verdict.error;
      }
    }

    method SendAll() returns (verdict: Verdict)
      requires Valid()
      modifies this
      ensures Valid() && (View(), verdict) == SendAllSpec(settings, old(View()))
    {
      var sent: nat := 0;
      ghost var (end, total) := SendAllSpec(settings, View());
      while buffer != []
        invariant Valid()
        invariant var (later, rest) := SendAllSpec(settings, View());
                  end == later && total == if rest.Ok? then Ok(sent + rest.value) else rest
        decreases |buffer|
      {
        var result := SendBatch();
        if result.Err? {
          return result;
        }
        sent := sent + result.value;
      }
      verdict := Ok(sent);
    }

    method Poll() returns (verdict: Verdict)
      requires Valid()
      modifies this
      ensures Valid() && (View(), verdict) == PollSpec(settings, old(View()))
    {
      if |buffer| >= settings.caps.maxBatch || bufferedBytes >= settings.caps.maxBytes {
        verdict := SendAll();
      } else {
        verdict := Ok(0);
      }
    }

    method Flush() returns (verdict: Verdict)
      requires Valid()
      modifies this
      ensures Valid() && (View(), verdict) == FlushSpec(settings, old(View()))
    {
      verdict := SendAll();
      if verdict.Ok? {
        verdict := Ok(|buffer|);
      }
    }
  }
}
