/** The keys of a planned backfill: no two planned files share an archive object or a staging object
    (awsnative/backfill/tiers.py with manifest.py). */
module PlanKeys {
  import opened Calendar
  import opened ArchivePlan
  import opened ArchiveCover
  import opened Manifest

  predicate DistinctSymbols(pairs: seq<Pair>)
  {
    forall i, j :: 0 <= i < j < |pairs| ==> pairs[i].1 != pairs[j].1
  }

  /** A planned file was made from one of the pairs. */
  lemma {:induction false} PlannedFileOrigin(w: Window, pairs: seq<Pair>, f: ArchiveFile) returns (k: nat)
    requires ValidWindow(w) && !EndOfTime(w.end) && f in Sorted(AllFiles(w, pairs))
    ensures k < |pairs| && Named(f) && (f.tier, f.instrumentId, f.venueSymbol) == (w.tier, pairs[k].0, pairs[k].1)
  {
    PlannedFilesArePublished(w, pairs, f);
    k :| 0 <= k < |pairs| && f in InstrumentFiles(w, pairs[k]);
    var i :| 0 <= i < |InstrumentFiles(w, pairs[k])| && InstrumentFiles(w, pairs[k])[i] == f;
    PlannedFileFacts(w, pairs[k], FirstOfMonth(w.start), i);
  }

  lemma PlannedFilesAreNamed(w: Window, pairs: seq<Pair>)
    requires ValidWindow(w) && !EndOfTime(w.end)
    ensures AllNamed(Sorted(AllFiles(w, pairs)))
  {
    var plan := Sorted(AllFiles(w, pairs));
    forall i | 0 <= i < |plan| ensures Named(plan[i]) {
      var k := PlannedFileOrigin(w, pairs, plan[i]);
    }
  }

  /** No two planned files are fetched from one object. */
  lemma {:induction false} PlannedKeysAreDistinct(w: Window, pairs: seq<Pair>, i: int, j: int)
    requires ValidWindow(w) && !EndOfTime(w.end) && DistinctInstruments(pairs) && DistinctSymbols(pairs)
    requires 0 <= i < j < |Sorted(AllFiles(w, pairs))|
    ensures KeyOf(Sorted(AllFiles(w, pairs))[i]) != KeyOf(Sorted(AllFiles(w, pairs))[j])
  {
    var f, g := Sorted(AllFiles(w, pairs))[i], Sorted(AllFiles(w, pairs))[j];
    PlanIsStrictlyOrdered(w, pairs, i, j);
    var k := PlannedFileOrigin(w, pairs, f);
    var l := PlannedFileOrigin(w, pairs, g);
    if KeyOf(f) == KeyOf(g) {
      KeysIdentifyFiles(f, g);
    }
  }

  /** No two planned files are staged in one object. */
  lemma {:induction false} PlannedStagingKeysAreDistinct(w: Window, pairs: seq<Pair>, i: int, j: int)
    requires ValidWindow(w) && !EndOfTime(w.end) && DistinctInstruments(pairs)
    requires 0 <= i < j < |Sorted(AllFiles(w, pairs))|
    ensures var f, g := Sorted(AllFiles(w, pairs))[i], Sorted(AllFiles(w, pairs))[j];
            StagingKey(f.tier, f.instrumentId, f.period) != StagingKey(g.tier, g.instrumentId, g.period)
  {
    var f, g := Sorted(AllFiles(w, pairs))[i], Sorted(AllFiles(w, pairs))[j];
    PlanIsStrictlyOrdered(w, pairs, i, j);
    var k := PlannedFileOrigin(w, pairs, f);
    var l := PlannedFileOrigin(w, pairs, g);
    if StagingKey(f.tier, f.instrumentId, f.period) == StagingKey(g.tier, g.instrumentId, g.period) {
      StagingKeysIdentify(f.tier, f.instrumentId, f.granularity, f.dt, g.tier, g.instrumentId, g.granularity, g.dt);
      PeriodIdentifies(f.granularity, f.dt, g.dt);
    }
  }
}
