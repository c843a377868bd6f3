/** Sequence-gap detection (ingest/core/gaps.py).

    `Step` is the meaning of one call of SequenceTracker.observe on a value-level watermark map;
    `Replay` folds it over a whole history. The class SequenceTracker updates its map in place and is
    proved against `Step`. */
module Gaps {
  import opened Prelude

  type Key = (string, string)

  type Watermarks = map<Key, int>

  datatype Observation = Observation(venue: string, venueSymbol: string, sequence: Option<int>) {
    function Key(): Key { (venue, venueSymbol) }
  }

  datatype Gap = Gap(venue: string, venueSymbol: string, lastSeen: int, nextSeen: int) {
    function Key(): Key { (venue, venueSymbol) }

    function MissingCount(): int { nextSeen - lastSeen - 1 }

    predicate Contains(id: int) { lastSeen < id < nextSeen }
  }

  function Step(marks: Watermarks, o: Observation): (Watermarks, Option<Gap>)
  {
    match o.sequence
    case None => (marks, None)
    case Some(sequence) =>
      var key := o.Key();
      if key !in marks then (marks[key := sequence], None) else
      var last := marks[key];
      (marks[key := if sequence > last then sequence else last],
       if sequence <= last + 1 then None else Some(Gap(o.venue, o.venueSymbol, last, sequence)))
  }

  class SequenceTracker {
    var watermarks: Watermarks

    constructor ()
      ensures watermarks == map[]
    {
      watermarks := map[];
    }

    method Observe(o: Observation) returns (gap: Option<Gap>)
      modifies this
      ensures (watermarks, gap) == Step(old(watermarks), o)
    {
      if o.sequence.None? {
        return None;
      }
      var key, sequence := o.Key(), o.sequence.value;
      if key !in watermarks {
        watermarks := watermarks[key := sequence];
        return None;
      }
      var last := watermarks[key];
      watermarks := watermarks[key := if sequence > last then sequence else last];
      if sequence <= last + 1 {
        return None;
      }
      gap := Some(Gap(o.venue, o.venueSymbol, last, sequence));
    }

    method Reset(venue: string, venueSymbol: string)
      modifies this
      ensures watermarks == old(watermarks) - {(venue, venueSymbol)}
    {
      watermarks := watermarks - {(venue, venueSymbol)};
    }
  }

  /** Everything a tracker has done: the watermarks it holds and the gaps it has reported. */
  datatype Trail = Trail(marks: Watermarks, gaps: seq<Gap>)

  function Extend(t: Trail, o: Observation): Trail
  {
    var (marks, gap) := Step(t.marks, o);
    Trail(marks, if gap.Some? then t.gaps + [gap.value] else t.gaps)
  }

  function Replay(history: seq<Observation>): Trail
  {
    if history == [] then Trail(map[], []) else
      var n := |history| - 1;
      Extend(Replay(history[..n]), history[n])
  }

  lemma ReplaySnoc(history: seq<Observation>, o: Observation)
    ensures Replay(history + [o]) == Extend(Replay(history), o)
  {
    assert (history + [o])[..|history|] == history;
  }

  // What a history says about one key, without mentioning the tracker.

  predicate Numbered(history: seq<Observation>, i: int, key: Key)
  {
    0 <= i < |history| && history[i].sequence.Some? && history[i].Key() == key
  }

  /** Observation `i` is larger than every earlier observation of its key. */
  predicate SetsRecord(history: seq<Observation>, i: int, key: Key)
  {
    && Numbered(history, i, key)
    && forall j :: 0 <= j < i && Numbered(history, j, key) ==> history[j].sequence.value < history[i].sequence.value
  }

  ghost predicate RecordId(history: seq<Observation>, key: Key, id: int)
  {
    exists i :: SetsRecord(history, i, key) && history[i].sequence.value == id
  }

  ghost predicate InGap(gaps: seq<Gap>, key: Key, id: int)
  {
    exists g <- gaps :: g.Key() == key && g.Contains(id)
  }

  ghost predicate IsFirst(history: seq<Observation>, key: Key, first: int)
  {
    exists i :: Numbered(history, i, key) && history[i].sequence.value == first
                && forall j :: 0 <= j < i ==> !Numbered(history, j, key)
  }

  ghost predicate IsMax(history: seq<Observation>, key: Key, max: int)
  {
    && (exists i :: Numbered(history, i, key) && history[i].sequence.value == max)
    && forall i :: Numbered(history, i, key) ==> history[i].sequence.value <= max
  }

  function RecordCount(history: seq<Observation>, key: Key): nat
  {
    if history == [] then 0 else
      var n := |history| - 1;
      RecordCount(history[..n], key) + if SetsRecord(history, n, key) then 1 else 0
  }

  function MissingTotal(gaps: seq<Gap>): int
  {
    if gaps == [] then 0 else MissingTotal(gaps[..|gaps| - 1]) + gaps[|gaps| - 1].MissingCount()
  }

  function GapHasKey(key: Key): Gap -> bool { (g: Gap) => g.Key() == key }

  function ObservationHasKey(key: Key): Observation -> bool { (o: Observation) => o.Key() == key }

  function GapsOf(gaps: seq<Gap>, key: Key): seq<Gap>
  {
    Filter(gaps, GapHasKey(key))
  }

  /** A record of a prefix stays a record: only earlier observations matter. */
  lemma RecordsOfPrefix(history: seq<Observation>, n: nat, i: int, key: Key)
    requires n <= |history| && i < n
    ensures Numbered(history[..n], i, key) == Numbered(history, i, key)
    ensures SetsRecord(history[..n], i, key) == SetsRecord(history, i, key)
  {
    assert forall j :: 0 <= j < n ==> Numbered(history[..n], j, key) == Numbered(history, j, key);
  }

  /** A key has a watermark exactly when it was numbered at least once, and it is the largest id seen. */
  lemma {:induction false} WatermarkIsMax(history: seq<Observation>, key: Key)
    ensures key in Replay(history).marks <==> exists i :: Numbered(history, i, key)
    ensures key in Replay(history).marks ==> IsMax(history, key, Replay(history).marks[key])
  {
    if history != [] {
      var n := |history| - 1;
      var before := history[..n];
      WatermarkIsMax(before, key);
      forall i | 0 <= i < n ensures Numbered(before, i, key) == Numbered(history, i, key) {}
      if key in Replay(before).marks {
        var w :| Numbered(before, w, key) && before[w].sequence.value == Replay(before).marks[key];
        assert Numbered(history, w, key);
      }
      if Numbered(history, n, key) {
        assert key in Replay(history).marks;
      }
    }
  }

  /** The two ends of a reported gap were both observed, the upper one after the lower one. */
  lemma {:induction false} GapEndsWereObserved(history: seq<Observation>, g: Gap)
    requires g in Replay(history).gaps
    ensures exists i, j :: Numbered(history, i, g.Key()) && Numbered(history, j, g.Key()) && i < j
                           && history[i].sequence.value == g.lastSeen && history[j].sequence.value == g.nextSeen
  {
    var n := |history| - 1;
    var before := history[..n];
    if g in Replay(before).gaps {
      GapEndsWereObserved(before, g);
      var i, j :| Numbered(before, i, g.Key()) && Numbered(before, j, g.Key()) && i < j
                  && before[i].sequence.value == g.lastSeen && before[j].sequence.value == g.nextSeen;
      assert Numbered(history, i, g.Key()) && Numbered(history, j, g.Key());
    } else {
      WatermarkIsMax(before, g.Key());
      var i :| Numbered(before, i, g.Key()) && before[i].sequence.value == g.lastSeen;
      assert Numbered(history, i, g.Key()) && Numbered(history, n, g.Key());
    }
  }

  /** The last observation adds its own id, if it sets a record, and nothing else. */
  lemma RecordIdSnoc(history: seq<Observation>, key: Key, id: int)
    requires history != []
    ensures var n := |history| - 1;
            RecordId(history, key, id) <==>
            RecordId(history[..n], key, id) || (SetsRecord(history, n, key) && history[n].sequence.value == id)
  {
    var n := |history| - 1;
    forall i | 0 <= i < n ensures SetsRecord(history[..n], i, key) == SetsRecord(history, i, key) {
      RecordsOfPrefix(history, n, i, key);
    }
  }

  lemma InGapExtend(t: Trail, o: Observation, key: Key, id: int)
    ensures var gap := Step(t.marks, o).1;
            InGap(Extend(t, o).gaps, key, id) <==>
            InGap(t.gaps, key, id) || (gap.Some? && gap.value.Key() == key && gap.value.Contains(id))
  {
    var gap, now := Step(t.marks, o).1, Extend(t, o).gaps;
    assert forall g :: g in now <==> g in t.gaps || gap == Some(g);
  }

  /** Where a key's history starts: in the prefix if the prefix has numbered it, else with the last observation. */
  lemma FirstOfPrefix(history: seq<Observation>, key: Key, first: int)
    requires history != [] && IsFirst(history, key, first)
    ensures var n := |history| - 1;
            if key in Replay(history[..n]).marks then IsFirst(history[..n], key, first) && first <= Replay(history[..n]).marks[key]
            else Numbered(history, n, key) && history[n].sequence.value == first
  {
    var n := |history| - 1;
    var before := history[..n];
    WatermarkIsMax(before, key);
    assert forall i :: 0 <= i < n ==> Numbered(before, i, key) == Numbered(history, i, key);
    var i :| Numbered(history, i, key) && history[i].sequence.value == first
             && forall j :: 0 <= j < i ==> !Numbered(history, j, key);
    if i < n {
      assert Numbered(before, i, key);
    }
  }

  /** Tiling. For every history, the ids between a key's first and largest observation are partitioned
      into record-setting ids and reported gaps: each id is one or the other and never both, and no id
      outside the range is either. */
  lemma {:induction false} Tiling(history: seq<Observation>, key: Key, first: int, id: int)
    requires IsFirst(history, key, first)
    ensures key in Replay(history).marks
    ensures (first <= id <= Replay(history).marks[key]) <==>
            (RecordId(history, key, id) || InGap(Replay(history).gaps, key, id))
    ensures !(RecordId(history, key, id) && InGap(Replay(history).gaps, key, id))
  {
    var n := |history| - 1;
    var before, o := history[..n], history[n];
    FirstOfPrefix(history, key, first);
    RecordMovesWatermark(history, key);
    RecordIdSnoc(history, key, id);
    InGapExtend(Replay(before), o, key, id);
    assert Replay(history) == Extend(Replay(before), o);
    if key in Replay(before).marks {
      Tiling(before, key, first, id);
    } else {
      NoGapWithoutWatermark(before, key);
      WatermarkIsMax(before, key);
    }
  }

  lemma {:induction false} NoGapWithoutWatermark(history: seq<Observation>, key: Key)
    requires key !in Replay(history).marks
    ensures forall g <- Replay(history).gaps :: g.Key() != key
  {
    if history != [] {
      NoGapWithoutWatermark(history[..|history| - 1], key);
    }
  }

  /** The reported gaps of one key come in increasing order and do not overlap, so each id is missed once. */
  lemma {:induction false} GapsAreOrdered(history: seq<Observation>, a: int, b: int)
    requires 0 <= a < b < |Replay(history).gaps|
    requires Replay(history).gaps[a].Key() == Replay(history).gaps[b].Key()
    ensures Replay(history).gaps[a].nextSeen <= Replay(history).gaps[b].lastSeen
  {
    var before := history[..|history| - 1];
    var key := Replay(history).gaps[a].Key();
    if b < |Replay(before).gaps| {
      GapsAreOrdered(before, a, b);
    } else {
      GapBelowWatermark(before, Replay(before).gaps[a]);
    }
  }

  lemma {:induction false} GapBelowWatermark(history: seq<Observation>, g: Gap)
    requires g in Replay(history).gaps
    ensures g.Key() in Replay(history).marks && g.nextSeen <= Replay(history).marks[g.Key()]
    ensures g.MissingCount() >= 1
  {
    var before := history[..|history| - 1];
    if g in Replay(before).gaps {
      GapBelowWatermark(before, g);
    }
  }

  lemma GapsOfExtend(t: Trail, o: Observation, key: Key)
    ensures GapsOf(Extend(t, o).gaps, key)
            == if o.Key() == key && Step(t.marks, o).1.Some? then GapsOf(t.gaps, key) + [Step(t.marks, o).1.value]
               else GapsOf(t.gaps, key)
  {
    var gap := Step(t.marks, o).1;
    if gap.Some? {
      FilterSnoc(t.gaps, gap.value, GapHasKey(key));
    }
  }

  lemma MissingTotalSnoc(gaps: seq<Gap>, g: Gap)
    ensures MissingTotal(gaps + [g]) == MissingTotal(gaps) + g.MissingCount()
  {
    assert (gaps + [g])[..|gaps|] == gaps;
  }

  /** The last observation sets a record exactly when it moves its key's watermark. */
  lemma RecordMovesWatermark(history: seq<Observation>, key: Key)
    requires history != []
    ensures var n := |history| - 1; var marks := Replay(history[..n]).marks;
            SetsRecord(history, n, key) <==>
            Numbered(history, n, key) && (key in marks ==> marks[key] < history[n].sequence.value)
  {
    var n := |history| - 1;
    var before := history[..n];
    WatermarkIsMax(before, key);
    assert forall i :: 0 <= i < n ==> Numbered(before, i, key) == Numbered(history, i, key);
    if key in Replay(before).marks {
      var w :| Numbered(before, w, key) && before[w].sequence.value == Replay(before).marks[key];
      assert Numbered(history, w, key);
    }
  }

  lemma NothingMissingWithoutWatermark(history: seq<Observation>, key: Key)
    requires key !in Replay(history).marks
    ensures GapsOf(Replay(history).gaps, key) == [] && RecordCount(history, key) == 0
  {
    var mine := GapsOf(Replay(history).gaps, key);
    NoGapWithoutWatermark(history, key);
    if mine != [] {
      FilterMembers(Replay(history).gaps, GapHasKey(key), mine[0]);
    }
    WatermarkIsMax(history, key);
    NoRecordWithoutWatermark(history, key);
  }

  /** Counting form of the tiling: what a key is missing is the length of its observed range minus the
      number of record-setting observations. */
  lemma {:induction false} MissingCountBalance(history: seq<Observation>, key: Key, first: int)
    requires IsFirst(history, key, first)
    ensures key in Replay(history).marks
    ensures MissingTotal(GapsOf(Replay(history).gaps, key))
            == Replay(history).marks[key] - first + 1 - RecordCount(history, key)
  {
    var n := |history| - 1;
    var before, o := history[..n], history[n];
    var was := Replay(before);
    FirstOfPrefix(history, key, first);
    RecordMovesWatermark(history, key);
    GapsOfExtend(was, o, key);
    if o.Key() == key && Step(was.marks, o).1.Some? {
      MissingTotalSnoc(GapsOf(was.gaps, key), Step(was.marks, o).1.value);
    }
    if key in was.marks {
      MissingCountBalance(before, key, first);
    } else {
      NothingMissingWithoutWatermark(before, key);
    }
  }

  lemma NoRecordWithoutWatermark(history: seq<Observation>, key: Key)
    requires forall i :: !Numbered(history, i, key)
    ensures RecordCount(history, key) == 0
  {
    if history != [] {
      var before := history[..|history| - 1];
      assert forall i :: Numbered(before, i, key) ==> Numbered(history, i, key);
      NoRecordWithoutWatermark(before, key);
    }
  }

  function HistoryOf(history: seq<Observation>, key: Key): seq<Observation>
  {
    Filter(history, ObservationHasKey(key))
  }

  /** As far as `key` is concerned, trail `t` tells the same story as trail `alone`. */
  predicate AgreeOn(t: Trail, alone: Trail, key: Key)
  {
    && GapsOf(t.gaps, key) == alone.gaps
    && (key in t.marks <==> key in alone.marks)
    && (key in t.marks ==> t.marks[key] == alone.marks[key])
  }

  lemma AgreeAfterOwn(t: Trail, alone: Trail, o: Observation)
    requires AgreeOn(t, alone, o.Key())
    ensures AgreeOn(Extend(t, o), Extend(alone, o), o.Key())
  {
    GapsOfExtend(t, o, o.Key());
  }

  lemma AgreeAfterOther(t: Trail, alone: Trail, o: Observation, key: Key)
    requires AgreeOn(t, alone, key) && o.Key() != key
    ensures AgreeOn(Extend(t, o), alone, key)
  {
    GapsOfExtend(t, o, key);
  }

  /** Interleaving independence: in every interleaving of several keys, the gaps reported for one key, and
      its watermark, are those of that key's own observations replayed alone. */
  lemma {:induction false} KeysAreIndependent(history: seq<Observation>, key: Key)
    ensures AgreeOn(Replay(history), Replay(HistoryOf(history, key)), key)
  {
    if history != [] {
      var n := |history| - 1;
      var before, o := history[..n], history[n];
      KeysAreIndependent(before, key);
      if o.Key() == key {
        AgreeAfterOwn(Replay(before), Replay(HistoryOf(before, key)), o);
        ReplaySnoc(HistoryOf(before, key), o);
      } else {
        AgreeAfterOther(Replay(before), Replay(HistoryOf(before, key)), o, key);
      }
    }
  }
}
