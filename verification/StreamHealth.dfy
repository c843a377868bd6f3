/** Replaying a retained topic through the producer's gap detector (devlab/health.py). */
module StreamHealth {
  import opened Prelude
  import opened Gaps

  datatype GapReport = GapReport(checked: nat, gaps: seq<Gap>, skippedVenues: seq<string>) {
    function Missing(): int { MissingTotal(gaps) }
  }

  /** Coinbase is the only venue whose sequence number is connection-wide. */
  const CONNECTION_SCOPED_VENUE := "coinbase"

  predicate Checkable(o: Observation) { o.venue != CONNECTION_SCOPED_VENUE && o.sequence.Some? }

  /** The records whose sequence numbers mean something when read back. */
  function Checked(records: seq<Observation>): seq<Observation> { Filter(records, Checkable) }

  method SequenceGaps(records: seq<Observation>) returns (report: GapReport)
    ensures report.checked == |Checked(records)|
    ensures report.gaps == Replay(Checked(records)).gaps
    ensures report.skippedVenues
            == if exists o :: o in records && o.venue == CONNECTION_SCOPED_VENUE then [CONNECTION_SCOPED_VENUE] else []
  {
    var tracker := new SequenceTracker();
    var found: seq<Gap>, checked: nat, skipped: set<string> := [], 0, {};
    for i := 0 to |records|
      invariant Trail(tracker.watermarks, found) == Replay(Checked(records[..i]))
      invariant checked == |Checked(records[..i])|
      invariant skipped <= {CONNECTION_SCOPED_VENUE}
      invariant skipped != {} <==> exists o :: o in records[..i] && o.venue == CONNECTION_SCOPED_VENUE
    {
      var record := records[i];
      assert records[..i + 1] == records[..i] + [record];
      FilterSnoc(records[..i], record, Checkable);
      if record.venue == CONNECTION_SCOPED_VENUE {
        skipped := skipped + {record.venue};
        continue;
      }
      if record.sequence.None? {
        continue;
      }
      ReplaySnoc(Checked(records[..i]), record);
      var gap := tracker.Observe(record);
      checked := checked + 1;
      if gap.Some? {
        found := found + [gap.value];
      }
    }
    assert records[..|records|] == records;
    report := GapReport(checked, found, if skipped == {} then [] else [CONNECTION_SCOPED_VENUE]);
  }

  function SumByKey(gaps: seq<Gap>, keys: seq<Key>): int
  {
    if keys == [] then 0 else SumByKey(gaps, keys[1..]) + MissingTotal(GapsOf(gaps, keys[0]))
  }

  predicate Distinct<T(==)>(s: seq<T>) { forall i, j :: 0 <= i < j < |s| ==> s[i] != s[j] }

  lemma {:induction false} SumByKeySnoc(gaps: seq<Gap>, g: Gap, keys: seq<Key>)
    requires Distinct(keys)
    ensures SumByKey(gaps + [g], keys) == SumByKey(gaps, keys) + if g.Key() in keys then g.MissingCount() else 0
  {
    if keys != [] {
      SumByKeySnoc(gaps, g, keys[1..]);
      FilterSnoc(gaps, g, GapHasKey(keys[0]));
      MissingTotalSnoc(GapsOf(gaps, keys[0]), g);
    }
  }

  lemma {:induction false} NothingMissing(keys: seq<Key>)
    ensures SumByKey([], keys) == 0
  {
    if keys != [] {
      NothingMissing(keys[1..]);
    }
  }

  lemma {:induction false} MissingSplitsByKey(gaps: seq<Gap>, keys: seq<Key>)
    requires Distinct(keys) && forall g <- gaps :: g.Key() in keys
    ensures MissingTotal(gaps) == SumByKey(gaps, keys)
  {
    if gaps == [] {
      NothingMissing(keys);
    } else {
      var n := |gaps| - 1;
      assert gaps == gaps[..n] + [gaps[n]];
      MissingSplitsByKey(gaps[..n], keys);
      SumByKeySnoc(gaps[..n], gaps[n], keys);
    }
  }

  /** What each key is missing when its own records are checked alone, added up. */
  function MissingAlone(records: seq<Observation>, keys: seq<Key>): int
  {
    if keys == [] then 0 else
      MissingAlone(records, keys[1..]) + MissingTotal(Replay(HistoryOf(Checked(records), keys[0])).gaps)
  }

  lemma {:induction false} SumByKeyIsMissingAlone(records: seq<Observation>, keys: seq<Key>)
    ensures SumByKey(Replay(Checked(records)).gaps, keys) == MissingAlone(records, keys)
  {
    if keys != [] {
      SumByKeyIsMissingAlone(records, keys[1..]);
      KeysAreIndependent(Checked(records), keys[0]);
    }
  }

  /** However the partitions of a topic interleave, the total reported missing is the sum of what each
      key would report if its records were checked on their own. */
  lemma InterleavingDoesNotChangeMissing(records: seq<Observation>, keys: seq<Key>)
    requires Distinct(keys) && forall o <- records :: Checkable(o) ==> o.Key() in keys
    ensures MissingTotal(Replay(Checked(records)).gaps) == MissingAlone(records, keys)
  {
    forall g | g in Replay(Checked(records)).gaps ensures g.Key() in keys {
      GapEndsWereObserved(Checked(records), g);
      var i :| Numbered(Checked(records), i, g.Key());
      FilterMembers(records, Checkable, Checked(records)[i]);
    }
    MissingSplitsByKey(Replay(Checked(records)).gaps, keys);
    SumByKeyIsMissingAlone(records, keys);
  }

  /** The two trails do not differ as far as the key goes. */
  predicate SameFor(a: Trail, b: Trail, key: Key)
  {
    && GapsOf(a.gaps, key) == GapsOf(b.gaps, key)
    && (key in a.marks <==> key in b.marks)
    && (key in a.marks ==> a.marks[key] == b.marks[key])
  }

  /** As far as one key of a symbol-scoped venue goes, leaving out the other records changes nothing; of a
      connection-scoped venue nothing is left. */
  lemma {:induction false} CheckingSeesTheStream(records: seq<Observation>, key: Key)
    ensures key.0 != "coinbase" ==> SameFor(Replay(Checked(records)), Replay(records), key)
    ensures key.0 == "coinbase" ==> GapsOf(Replay(Checked(records)).gaps, key) == []
  {
    if records != [] {
      var n := |records| - 1;
      var before, o := records[..n], records[n];
      CheckingSeesTheStream(before, key);
      ReplaySnoc(before, o);
      if Checkable(o) {
        ReplaySnoc(Checked(before), o);
      }
      GapsOfExtend(Replay(before), o, key);
      GapsOfExtend(Replay(Checked(before)), o, key);
    }
  }

  /** The read-back check reports what the ingest tracker reported. For each key of a symbol-scoped venue its gaps
      are exactly those of the tracker that was given every record, and no gap is of a connection-scoped venue. */
  lemma ReportIsTheTrackers(records: seq<Observation>, key: Key)
    ensures GapsOf(Replay(Checked(records)).gaps, key) == if key.0 == "coinbase" then [] else GapsOf(Replay(records).gaps, key)
  {
    CheckingSeesTheStream(records, key);
  }

  predicate OfSkippedVenue(o: Observation) { o.venue == "coinbase" }

  predicate UnnumberedElsewhere(o: Observation) { o.venue != "coinbase" && o.sequence.None? }

  /** Every record is either checked, or of the skipped venue, or without a number. */
  lemma {:induction false} RecordsAreCounted(records: seq<Observation>)
    ensures |records| == |Checked(records)| + |Filter(records, OfSkippedVenue)| + |Filter(records, UnnumberedElsewhere)|
  {
    if records != [] {
      RecordsAreCounted(records[..|records| - 1]);
    }
  }
}
