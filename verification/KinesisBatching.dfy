/** Cutting a buffer into put_records requests (awsnative/sink.py, `_take_batch`). */
module KinesisBatching {
  import opened Prelude

  datatype Record = Record(data: seq<bv8>, partitionKey: string)

  datatype Caps = Caps(maxBatch: int, maxBytes: int)

  function Bytes(records: seq<Record>): nat
  {
    if records == [] then 0 else Bytes(records[..|records| - 1]) + |records[|records| - 1].data|
  }

  /** A request the sink may send: non-empty and within both caps, or a single record of any size. */
  predicate Fits(caps: Caps, batch: seq<Record>)
  {
    batch != [] && (|batch| == 1 || (|batch| <= caps.maxBatch && Bytes(batch) <= caps.maxBytes))
  }

  /** How far a non-empty prefix of length `n` grows before a cap stops it. */
  function Grow(caps: Caps, records: seq<Record>, n: nat): (length: nat)
    requires 1 <= n <= |records|
    ensures n <= length <= |records|
    decreases |records| - n
  {
    if n == |records| || n >= caps.maxBatch || Bytes(records[..n + 1]) > caps.maxBytes then n
    else Grow(caps, records, n + 1)
  }

  function BatchLength(caps: Caps, records: seq<Record>): (length: nat)
    requires records != []
    ensures 1 <= length <= |records|
  {
    Grow(caps, records, 1)
  }

  /** The batches the loop of `_send_all` takes off a buffer. */
  function Batches(caps: Caps, records: seq<Record>): seq<seq<Record>>
    decreases |records|
  {
    if records == [] then [] else
      var n := BatchLength(caps, records);
      [records[..n]] + Batches(caps, records[n..])
  }

  lemma BytesSnoc(records: seq<Record>, r: Record)
    ensures Bytes(records + [r]) == Bytes(records) + |r.data|
  {
    assert (records + [r])[..|records|] == records;
  }

  lemma {:induction false} BytesAppend(a: seq<Record>, b: seq<Record>)
    ensures Bytes(a + b) == Bytes(a) + Bytes(b)
  {
    if b == [] {
      assert a + b == a;
    } else {
      var n := |b| - 1;
      assert b == b[..n] + [b[n]] && a + b == (a + b[..n]) + [b[n]];
      BytesAppend(a, b[..n]);
      BytesSnoc(a + b[..n], b[n]);
    }
  }

  lemma SliceOfSlice<T>(s: seq<T>, lo: nat, hi: nat, i: nat, j: nat)
    requires lo <= hi <= |s| && i <= j <= hi - lo
    ensures s[lo..hi][i..j] == s[lo + i..lo + j]
  {
    var a, b := s[lo..hi][i..j], s[lo + i..lo + j];
    assert |a| == |b| && forall k :: 0 <= k < |a| ==> a[k] == b[k];
  }

  /** A non-empty part of a request that fits also fits. */
  lemma FitsPart(caps: Caps, batch: seq<Record>, i: nat, j: nat)
    requires Fits(caps, batch) && i < j <= |batch|
    ensures Fits(caps, batch[i..j])
  {
    BytesAppend(batch[..i], batch[i..j]);
    BytesAppend(batch[..i] + batch[i..j], batch[j..]);
    assert batch == batch[..i] + batch[i..j] + batch[j..];
  }

  /** A grown prefix fits, and no longer prefix does. */
  lemma {:induction false} GrowIsLongest(caps: Caps, records: seq<Record>, n: nat)
    requires 1 <= n <= |records| && Fits(caps, records[..n])
    ensures Fits(caps, records[..Grow(caps, records, n)])
    ensures forall m: nat :: Grow(caps, records, n) < m <= |records| ==> !Fits(caps, records[..m])
    decreases |records| - n
  {
    if n < |records| {
      if n >= caps.maxBatch || Bytes(records[..n + 1]) > caps.maxBytes {
        forall m: nat | n < m <= |records| ensures !Fits(caps, records[..m]) {
          assert records[..m] == records[..n + 1] + records[n + 1..m];
          BytesAppend(records[..n + 1], records[n + 1..m]);
        }
      } else {
        GrowIsLongest(caps, records, n + 1);
      }
    }
  }

  lemma BatchIsLongest(caps: Caps, records: seq<Record>)
    requires records != []
    ensures Fits(caps, records[..BatchLength(caps, records)])
    ensures forall m: nat :: BatchLength(caps, records) < m <= |records| ==> !Fits(caps, records[..m])
  {
    GrowIsLongest(caps, records, 1);
  }

  /** A cut of `records` into consecutive requests that fit. */
  predicate IsCut(caps: Caps, records: seq<Record>, parts: seq<seq<Record>>)
  {
    Flatten(parts) == records && forall part <- parts :: Fits(caps, part)
  }

  lemma {:induction false} BatchesAreACut(caps: Caps, records: seq<Record>)
    ensures IsCut(caps, records, Batches(caps, records))
    decreases |records|
  {
    if records != [] {
      var n := BatchLength(caps, records);
      BatchIsLongest(caps, records);
      BatchesAreACut(caps, records[n..]);
      assert records == records[..n] + records[n..];
    }
  }

  /** The first part of a cut, and the cut of what follows it. */
  lemma CutHead(caps: Caps, records: seq<Record>, i: nat, parts: seq<seq<Record>>)
    requires i < |records| && IsCut(caps, records[i..], parts)
    ensures parts != [] && i < i + |parts[0]| <= |records| && Fits(caps, parts[0])
    ensures parts[0] == records[i..i + |parts[0]|] && IsCut(caps, records[i + |parts[0]|..], parts[1..])
  {
    assert parts != [] && parts[0] in parts;
    var n, rest := |parts[0]|, Flatten(parts[1..]);
    assert records[i..] == parts[0] + rest;
    assert records[i..][..n] == parts[0] && records[i..][n..] == rest;
    assert records[i..][..n] == records[i..i + n] && records[i..][n..] == records[i + n..];
    assert forall part <- parts[1..] :: part in parts;
  }

  /** Started inside a request that fits, the greedy one reaches at least to its end. */
  lemma GreedyReaches(caps: Caps, records: seq<Record>, i: nat, j: nat, end: nat)
    requires i <= j < end <= |records| && Fits(caps, records[i..end])
    ensures end <= j + BatchLength(caps, records[j..])
  {
    BatchIsLongest(caps, records[j..]);
    FitsPart(caps, records[i..end], j - i, end - i);
    SliceOfSlice(records, i, end, j - i, end - i);
    assert records[j..][..end - j] == records[j..end];
  }

  lemma BatchesStep(caps: Caps, records: seq<Record>, j: nat)
    requires j < |records|
    ensures var n := BatchLength(caps, records[j..]);
            j + n <= |records| && |Batches(caps, records[j..])| == 1 + |Batches(caps, records[j + n..])|
  {
    var n := BatchLength(caps, records[j..]);
    assert records[j..][n..] == records[j + n..];
  }

  /** One request of the other cut: either the greedy cut is past it already, or one batch takes it past. */
  lemma GreedyStep(caps: Caps, records: seq<Record>, i: nat, j: nat, parts: seq<seq<Record>>) returns (i': nat, j': nat)
    requires i <= j < |records| && IsCut(caps, records[i..], parts)
    ensures parts != [] && i' <= j' <= |records| && IsCut(caps, records[i'..], parts[1..])
    ensures |Batches(caps, records[j..])| <= 1 + |Batches(caps, records[j'..])|
  {
    CutHead(caps, records, i, parts);
    i', j' := i + |parts[0]|, j;
    if j < i' {
      GreedyReaches(caps, records, i, j, i');
      BatchesStep(caps, records, j);
      j' := j + BatchLength(caps, records[j..]);
    }
  }

  /** The greedy cut stays ahead: started no earlier than another cut, it needs no more batches. */
  lemma {:induction false} GreedyStaysAhead(caps: Caps, records: seq<Record>, i: nat, j: nat, parts: seq<seq<Record>>)
    requires i <= j <= |records| && IsCut(caps, records[i..], parts)
    ensures |Batches(caps, records[j..])| <= |parts|
    decreases |parts|
  {
    if j < |records| {
      var i', j' := GreedyStep(caps, records, i, j, parts);
      GreedyStaysAhead(caps, records, i', j', parts[1..]);
    }
  }

  /** Greedy batching is optimal: the sink cuts every buffer into consecutive requests that each fit, and no
      other such cut uses fewer requests. */
  lemma BatchingIsOptimal(caps: Caps, records: seq<Record>, parts: seq<seq<Record>>)
    requires IsCut(caps, records, parts)
    ensures IsCut(caps, records, Batches(caps, records)) && |Batches(caps, records)| <= |parts|
  {
    BatchesAreACut(caps, records);
    assert records[0..] == records;
    GreedyStaysAhead(caps, records, 0, 0, parts);
  }
}
