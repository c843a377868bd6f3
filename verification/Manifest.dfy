/** Archive keys, staging keys and work items (awsnative/backfill/manifest.py and the names in tiers.py). */
module Manifest {
  import opened Calendar
  import opened PyText
  import opened ArchivePlan

  const VENUE := "binance"

  function GranularityText(g: Granularity): string { if g.Monthly? then "monthly" else "daily" }

  function Dataset(t: Tier): string { if t.Deep? then "klines" else "aggTrades" }

  function IntervalSegment(t: Tier): string { if t.Deep? then "1m/" else "" }

  function NameInfix(t: Tier): string { if t.Deep? then "1m" else "aggTrades" }

  function PeriodText(g: Granularity, d: Date): string
    requires ValidDate(d)
  {
    if g.Monthly? then MonthText(d) else DayText(d)
  }

  /** A file as the planner makes it: its period is the text of its first day. */
  predicate Named(f: ArchiveFile) { ValidDate(f.dt) && (f.granularity.Monthly? ==> f.dt.day == 1) && f.period == PeriodText(f.granularity, f.dt) }

  function Filename(f: ArchiveFile): string { f.venueSymbol + ("-" + NameInfix(f.tier) + "-" + (f.period + ".zip")) }

  /** ArchiveFile.key. */
  function KeyOf(f: ArchiveFile): string
  {
    "data/spot/" + (GranularityText(f.granularity) + ("/" + (Dataset(f.tier) + ("/" +
      (f.venueSymbol + ("/" + IntervalSegment(f.tier) + Filename(f)))))))
  }

  const KLINES_STAGING := "archive_staging_klines"

  const TRADES_STAGING := "archive_staging_trades"

  function StagingPrefix(t: Tier): string { if t.Deep? then KLINES_STAGING else TRADES_STAGING }

  function StagingKey(t: Tier, instrumentId: string, period: string): string
  {
    StagingPrefix(t) + ("/" + ((instrumentId + ("-" + period)) + ".csv.gz"))
  }

  lemma SameStart<T>(a: seq<T>, b: seq<T>, c: seq<T>, d: seq<T>)
    requires a + b == c + d && |a| == |c|
    ensures a == c && b == d
  {
    assert (a + b)[..|a|] == a && (c + d)[..|c|] == c;
    assert (a + b)[|a|..] == b && (c + d)[|c|..] == d;
  }

  lemma TwoDigitsIdentify(m: int, n: int)
    requires 0 <= m < 100 && 0 <= n < 100
    ensures TwoDigits(m) == TwoDigits(n) ==> m == n
  {
    DigitRoundTrip(m / 10);
    DigitRoundTrip(n / 10);
    DigitRoundTrip(m % 10);
    DigitRoundTrip(n % 10);
    if TwoDigits(m) == TwoDigits(n) {
      assert TwoDigits(m)[0] == TwoDigits(n)[0] && TwoDigits(m)[1] == TwoDigits(n)[1];
    }
  }

  lemma MonthTextIdentifies(a: Date, b: Date)
    requires ValidDate(a) && ValidDate(b) && MonthText(a) == MonthText(b)
    ensures a.year == b.year && a.month == b.month
  {
    SameStart(FourDigits(a.year) + "-", TwoDigits(a.month), FourDigits(b.year) + "-", TwoDigits(b.month));
    SameStart(FourDigits(a.year), "-", FourDigits(b.year), "-");
    SameStart(TwoDigits(a.year / 100), TwoDigits(a.year % 100), TwoDigits(b.year / 100), TwoDigits(b.year % 100));
    TwoDigitsIdentify(a.year / 100, b.year / 100);
    TwoDigitsIdentify(a.year % 100, b.year % 100);
    TwoDigitsIdentify(a.month, b.month);
  }

  lemma PeriodIdentifies(g: Granularity, a: Date, b: Date)
    requires ValidDate(a) && ValidDate(b) && (g.Monthly? ==> a.day == b.day) && PeriodText(g, a) == PeriodText(g, b)
    ensures a == b
  {
    if g.Daily? {
      SameStart(MonthText(a) + "-", TwoDigits(a.day), MonthText(b) + "-", TwoDigits(b.day));
      SameStart(MonthText(a), "-", MonthText(b), "-");
      TwoDigitsIdentify(a.day, b.day);
    }
    MonthTextIdentifies(a, b);
  }

  lemma SameTail(f: ArchiveFile, g: ArchiveFile)
    requires f.tier == g.tier && |f.period| == |g.period|
    requires f.venueSymbol + ("/" + IntervalSegment(f.tier) + Filename(f)) == g.venueSymbol + ("/" + IntervalSegment(g.tier) + Filename(g))
    ensures f.venueSymbol == g.venueSymbol && f.period == g.period
  {
    assert |Filename(f)| == |f.venueSymbol| + 1 + |NameInfix(f.tier)| + 1 + |f.period| + 4;
    assert |Filename(g)| == |g.venueSymbol| + 1 + |NameInfix(f.tier)| + 1 + |g.period| + 4;
    SameStart(f.venueSymbol, "/" + IntervalSegment(f.tier) + Filename(f), g.venueSymbol, "/" + IntervalSegment(g.tier) + Filename(g));
    SameStart("/" + IntervalSegment(f.tier), Filename(f), "/" + IntervalSegment(g.tier), Filename(g));
    var dash := "-" + NameInfix(f.tier) + "-";
    SameStart(f.venueSymbol, dash + (f.period + ".zip"), g.venueSymbol, dash + (g.period + ".zip"));
    SameStart(dash, f.period + ".zip", dash, g.period + ".zip");
    SameStart(f.period, ".zip", g.period, ".zip");
  }

  /** Archive keys identify files: two planned files with one key agree in tier, symbol, granularity and day,
      whatever characters the symbol contains. */
  lemma KeysIdentifyFiles(f: ArchiveFile, g: ArchiveFile)
    requires Named(f) && Named(g) && KeyOf(f) == KeyOf(g)
    ensures (f.tier, f.venueSymbol, f.granularity, f.dt) == (g.tier, g.venueSymbol, g.granularity, g.dt)
  {
    var tailF := f.venueSymbol + ("/" + IntervalSegment(f.tier) + Filename(f));
    var tailG := g.venueSymbol + ("/" + IntervalSegment(g.tier) + Filename(g));
    var restF, restG := "/" + (Dataset(f.tier) + ("/" + tailF)), "/" + (Dataset(g.tier) + ("/" + tailG));
    SameStart("data/spot/", GranularityText(f.granularity) + restF, "data/spot/", GranularityText(g.granularity) + restG);
    assert (GranularityText(f.granularity) + restF)[0] == (GranularityText(g.granularity) + restG)[0];
    assert f.granularity == g.granularity;
    SameStart(GranularityText(f.granularity), restF, GranularityText(g.granularity), restG);
    SameStart("/", Dataset(f.tier) + ("/" + tailF), "/", Dataset(g.tier) + ("/" + tailG));
    assert (Dataset(f.tier) + ("/" + tailF))[0] == (Dataset(g.tier) + ("/" + tailG))[0];
    assert f.tier == g.tier;
    SameStart(Dataset(f.tier), "/" + tailF, Dataset(g.tier), "/" + tailG);
    SameStart("/", tailF, "/", tailG);
    SameTail(f, g);
    PeriodIdentifies(f.granularity, f.dt, g.dt);
  }

  lemma PeriodShape(g: Granularity, d: Date)
    requires ValidDate(d)
    ensures g.Monthly? ==> PeriodText(g, d)[1] != '-'
    ensures g.Daily? ==> PeriodText(g, d)[4] == '-'
  {
    DigitRoundTrip(d.year / 100 % 10);
  }

  /** Staging keys identify (tier, instrument, period), even though instrument ids and periods both contain dashes. */
  lemma StagingKeysIdentify(t: Tier, id: string, g: Granularity, d: Date, t': Tier, id': string, g': Granularity, d': Date)
    requires ValidDate(d) && ValidDate(d') && StagingKey(t, id, PeriodText(g, d)) == StagingKey(t', id', PeriodText(g', d'))
    ensures t == t' && id == id' && g == g' && PeriodText(g, d) == PeriodText(g', d')
  {
    var p, p' := PeriodText(g, d), PeriodText(g', d');
    var s, s' := id + ("-" + p), id' + ("-" + p');
    SameStart(StagingPrefix(t), "/" + (s + ".csv.gz"), StagingPrefix(t'), "/" + (s' + ".csv.gz"));
    assert StagingPrefix(t)[16] == StagingPrefix(t')[16];
    SameStart("/", s + ".csv.gz", "/", s' + ".csv.gz");
    SameStart(s, ".csv.gz", s', ".csv.gz");
    PeriodShape(g, d);
    PeriodShape(g', d');
    var at := |s| - 6;
    assert s[at] == s'[at];
    assert g.Monthly? ==> s[at] == p[1];
    assert g.Daily? ==> s[at] == p[4];
    assert g'.Monthly? ==> s'[at] == p'[1];
    assert g'.Daily? ==> s'[at] == p'[4];
    SameStart(id, "-" + p, id', "-" + p');
    SameStart("-", p, "-", p');
  }

  /** One archive file to fetch, as text that crosses into Step Functions. */
  datatype WorkItem = WorkItem(tier: Tier, venue: string, instrumentId: string, venueSymbol: string,
                               granularity: Granularity, period: string, dt: string,
                               archiveKey: string, stagingKey: string)

  function ItemFor(f: ArchiveFile): WorkItem
    requires ValidDate(f.dt)
  {
    WorkItem(f.tier, VENUE, f.instrumentId, f.venueSymbol, f.granularity, f.period, DayText(f.dt),
             KeyOf(f), StagingKey(f.tier, f.instrumentId, f.period))
  }

  predicate AllDated(files: seq<ArchiveFile>) { forall i :: 0 <= i < |files| ==> ValidDate(files[i].dt) }

  predicate AllNamed(files: seq<ArchiveFile>) { forall i :: 0 <= i < |files| ==> Named(files[i]) }

  /** Work items for the files whose key is not in `alreadyDone`, in order. */
  function Plan(files: seq<ArchiveFile>, alreadyDone: set<string>): seq<WorkItem>
    requires AllDated(files)
  {
    if files == [] then []
    else if KeyOf(files[0]) in alreadyDone then Plan(files[1..], alreadyDone)
    else [ItemFor(files[0])] + Plan(files[1..], alreadyDone)
  }
}
