/** What an outcome of the loader says about the archive (awsnative/backfill/loader.py, manifest.py). */
module LoaderOutcomes {
  import opened Prelude
  import opened Calendar
  import opened PyText
  import opened ArchivePlan
  import opened ArchiveCover
  import opened ArchiveRows
  import opened Manifest
  import opened Staging
  import opened Loader
  import opened StagingGuarantees
  import PlanKeys

  /** The checksum file is there and is text. */
  predicate ChecksumRead(w: World, item: WorkItem)
  {
    var sum := w.fetch(ChecksumUrl(item));
    sum.Body? && w.decode(sum.bytes).Some?
  }

  /** The archive answers 404 for the first of the two objects that cannot be read. */
  predicate Absent(w: World, item: WorkItem)
  {
    w.fetch(ChecksumUrl(item)).NotFound? || (ChecksumRead(w, item) && w.fetch(Url(item)).NotFound?)
  }

  /** The network fails, or the reader of a checked zip does. */
  predicate BreaksDown(w: World, item: WorkItem)
  {
    var sum, zip := w.fetch(ChecksumUrl(item)), w.fetch(Url(item));
    || sum.Broken?
    || (ChecksumRead(w, item) && zip.Broken?)
    || (ChecksumRead(w, item) && zip.Body?
        && NamesDigest(w.decode(sum.bytes).value, ItemFilename(item), w.sha256(zip.bytes))
        && w.unzip(zip.bytes).Members? && |w.unzip(zip.bytes).members| == 1 && w.unzip(zip.bytes).members[0].Unreadable?)
  }

  /** A manifest row without data. */
  predicate Empty(outcome: Outcome) { outcome.sha256 == "" && outcome.rowCount == 0 }

  /** Each status means one thing. The loader crashes exactly when the network or the zip reader breaks down;
      otherwise an item is SKIPPED_NO_DATA exactly when the archive has no such object, DONE exactly when the file
      is soundly published and every line is a row, and FAILED in every other case. Only a DONE row carries a
      digest, which is that of the bytes fetched. */
  lemma StatusExactlyWhen(w: World, item: WorkItem)
    requires RealDigests(w)
    ensures OutcomeOf(w, item).None? <==> BreaksDown(w, item)
    ensures !BreaksDown(w, item) ==>
              var outcome := OutcomeOf(w, item).value;
              && outcome.archiveKey == item.archiveKey
              && (outcome.status.SKIPPED_NO_DATA? <==> Absent(w, item))
              && (outcome.status.DONE? <==> exists lines :: Loadable(w, item, lines))
              && (if outcome.status.DONE? then w.fetch(Url(item)).Body? && outcome.sha256 == w.sha256(w.fetch(Url(item)).bytes) else Empty(outcome))
  {
    DoneExactlyWhenLoadable(w, item);
    JudgedExactly(w, item);
    if Judge(w, item).Accepted? {
      var lines := AcceptedIsLoadable(w, item);
    }
  }

  lemma JudgedExactly(w: World, item: WorkItem)
    requires RealDigests(w)
    ensures Judge(w, item).Crash? <==> BreaksDown(w, item)
    ensures Judge(w, item).Missing? <==> Absent(w, item)
  {
    var sum, zip := w.fetch(ChecksumUrl(item)), w.fetch(Url(item));
    if ChecksumRead(w, item) && zip.Body? {
      VerifyAcceptsExactly(w.sha256(zip.bytes), w.decode(sum.bytes).value, ItemFilename(item));
    }
  }

  /** The row carries the instrument, and a trade row also the symbol. */
  predicate Names(tier: Tier, row: seq<string>, instrument: string, symbol: string)
  {
    && |row| == (if tier.Deep? then 11 else 10) && row[0] == instrument
    && (tier.Hot? ==> row[2] == symbol)
  }

  lemma TradeRowNames(line: string, instrument: string, symbol: string, row: seq<string>)
    requires StagedTrade(line, instrument, symbol, row)
    ensures Names(Hot, row, instrument, symbol)
  {
    assert row[..3][0] == row[0] && row[..3][2] == row[2];
  }

  lemma KlineRowNames(line: string, instrument: string, symbol: string, row: seq<string>)
    requires StagedKline(line, instrument, row)
    ensures Names(Deep, row, instrument, symbol)
  {
  }

  lemma RowsName(item: WorkItem, lines: seq<string>, table: seq<seq<string>>, n: nat)
    requires StagedFrom(item, lines, table) && n < |table|
    ensures Names(item.tier, table[n], item.instrumentId, item.venueSymbol)
  {
    if item.tier.Hot? {
      TradeRowNames(lines[n], item.instrumentId, item.venueSymbol, table[n]);
    } else {
      KlineRowNames(lines[n], item.instrumentId, item.venueSymbol, table[n]);
    }
  }

  lemma RowsOfTableName(item: WorkItem, lines: seq<string>, table: seq<seq<string>>)
    requires StagedFrom(item, lines, table)
    ensures forall row <- table :: Names(item.tier, row, item.instrumentId, item.venueSymbol)
  {
    forall row | row in table
      ensures Names(item.tier, row, item.instrumentId, item.venueSymbol)
    {
      var n :| 0 <= n < |table| && table[n] == row;
      RowsName(item, lines, table, n);
    }
  }

  lemma StagedRowsName(w: World, item: WorkItem)
    requires RealDigests(w) && Staging.Clean(item.instrumentId) && Staging.Clean(item.venueSymbol) && IsDone(w, item)
    ensures forall row <- TableOf(Judge(w, item).text) :: Names(item.tier, row, item.instrumentId, item.venueSymbol)
  {
    var lines := StagedWhole(w, item);
    RowsOfTableName(item, NonBlank(lines), TableOf(Judge(w, item).text));
  }

  /** A planned file is staged under the names it was asked for: every row of it carries the instrument, and a
      trade row also the symbol, of one of the requested pairs. */
  lemma StagedUnderItsNames(w: World, win: Window, pairs: seq<Pair>, i: nat) returns (k: nat)
    requires ValidWindow(win) && !EndOfTime(win.end) && i < |Sorted(AllFiles(win, pairs))| && RealDigests(w)
    requires forall pair <- pairs :: Staging.Clean(pair.0) && Staging.Clean(pair.1)
    requires ValidDate(Sorted(AllFiles(win, pairs))[i].dt) && IsDone(w, ItemFor(Sorted(AllFiles(win, pairs))[i]))
    ensures k < |pairs|
    ensures forall row <- TableOf(Judge(w, ItemFor(Sorted(AllFiles(win, pairs))[i])).text) ::
              Names(win.tier, row, pairs[k].0, pairs[k].1)
  {
    var f := Sorted(AllFiles(win, pairs))[i];
    k := PlanKeys.PlannedFileOrigin(win, pairs, f);
    assert pairs[k] in pairs;
    StagedRowsName(w, ItemFor(f));
  }
}
