/** Which archive files a backfill window needs (awsnative/backfill/tiers.py). */
module ArchivePlan {
  import opened Prelude
  import opened Calendar
  import opened PyText

  datatype Tier = Deep | Hot

  datatype Granularity = Daily | Monthly

  const MONTHLY_PUBLICATION_LAG_DAYS := 7

  // Text of dates. `%Y` is taken to print four digits.

  function TwoDigits(n: int): (text: string)
    requires 0 <= n < 100
    ensures |text| == 2
  {
    [Digit(n / 10), Digit(n % 10)]
  }

  function FourDigits(n: int): (text: string)
    requires 0 <= n < 10000
    ensures |text| == 4
  {
    TwoDigits(n / 100) + TwoDigits(n % 100)
  }

  function MonthText(d: Date): (text: string)
    requires ValidDate(d)
    ensures |text| == 7
  {
    FourDigits(d.year) + "-" + TwoDigits(d.month)
  }

  function DayText(d: Date): (text: string)
    requires ValidDate(d)
    ensures |text| == 10
  {
    MonthText(d) + "-" + TwoDigits(d.day)
  }

  datatype ArchiveFile = ArchiveFile(tier: Tier, instrumentId: string, venueSymbol: string,
                                     granularity: Granularity, period: string, dt: Date)

  type Pair = (string, string)

  /** What files_for_window is asked for, apart from the instruments. */
  datatype Window = Window(tier: Tier, start: Date, end: Date, today: Date)

  predicate ValidWindow(w: Window)
  {
    ValidDate(w.start) && ValidDate(w.end) && ValidDate(w.today) && AtMost(w.start, w.end)
  }

  /** The month's last day, plus the publication lag, is past the calendar: date arithmetic raises. */
  predicate EndOfTime(d: Date) { d.year == MAX_YEAR && d.month == 12 }

  function MonthlyFile(w: Window, pair: Pair, first: Date): ArchiveFile
    requires ValidDate(first)
  {
    ArchiveFile(w.tier, pair.0, pair.1, Monthly, MonthText(first), first)
  }

  function DailyFile(w: Window, pair: Pair, day: Date): ArchiveFile
    requires ValidDate(day)
  {
    ArchiveFile(w.tier, pair.0, pair.1, Daily, DayText(day), day)
  }

  predicate MonthlyUsable(w: Window, first: Date, last: Date)
    requires ValidDate(last) && ValidDate(w.today)
  {
    AtMost(w.start, first) && AtMost(last, w.end) && Ordinal(last) + MONTHLY_PUBLICATION_LAG_DAYS <= Ordinal(w.today)
  }

  function Later(a: Date, b: Date): Date { if Before(a, b) then b else a }

  function Earlier(a: Date, b: Date): Date { if Before(b, a) then b else a }

  function DailyFiles(w: Window, pair: Pair, from: Date, to: Date): seq<ArchiveFile>
    requires ValidDate(from) && ValidDate(to) && !EndOfTime(to)
    decreases Ordinal(to) - Ordinal(from) + 1
  {
    OrderIsOrdinal(from, to);
    if !AtMost(from, to) then [] else
      NextDayOrdinal(from);
      [DailyFile(w, pair, from)] + DailyFiles(w, pair, NextDay(from), to)
  }

  function MonthFiles(w: Window, pair: Pair, first: Date): seq<ArchiveFile>
    requires ValidWindow(w) && !EndOfTime(w.end) && ValidDate(first) && first.day == 1 && AtMost(first, w.end)
  {
    var last := LastOfMonth(first);
    if MonthlyUsable(w, first, last) then [MonthlyFile(w, pair, first)]
    else DailyFiles(w, pair, Later(first, w.start), Earlier(last, w.end))
  }

  /** The first day of the month after `first`. */
  function NextMonth(first: Date): Date { NextDay(LastOfMonth(first)) }

  /** Calendar months from `first` to the end of the window. */
  function MonthsLeft(w: Window, first: Date): int
  {
    (w.end.year - first.year) * 12 + w.end.month - first.month + 1
  }

  /** One instrument's files from month `first` on. */
  function FilesFrom(w: Window, pair: Pair, first: Date): seq<ArchiveFile>
    requires ValidWindow(w) && !EndOfTime(w.end) && ValidDate(first) && first.day == 1
    decreases MonthsLeft(w, first)
  {
    if !AtMost(first, w.end) then [] else
      MonthFiles(w, pair, first) + FilesFrom(w, pair, NextMonth(first))
  }

  function InstrumentFiles(w: Window, pair: Pair): seq<ArchiveFile>
    requires ValidWindow(w) && !EndOfTime(w.end)
  {
    FilesFrom(w, pair, FirstOfMonth(w.start))
  }

  function AllFiles(w: Window, pairs: seq<Pair>): seq<ArchiveFile>
    requires ValidWindow(w) && !EndOfTime(w.end)
  {
    if pairs == [] then [] else AllFiles(w, pairs[..|pairs| - 1]) + InstrumentFiles(w, pairs[|pairs| - 1])
  }

  // The sort key (instrument_id, dt, granularity); "daily" sorts before "monthly".

  predicate TextBefore(a: string, b: string)
  {
    b != [] && (a == [] || a[0] < b[0] || (a[0] == b[0] && TextBefore(a[1..], b[1..])))
  }

  predicate KeyBefore(f: ArchiveFile, g: ArchiveFile)
  {
    || TextBefore(f.instrumentId, g.instrumentId)
    || (f.instrumentId == g.instrumentId &&
        (Before(f.dt, g.dt) || (f.dt == g.dt && f.granularity.Daily? && g.granularity.Monthly?)))
  }

  /** Puts `f` before the first file it does not come after. */
  function Insert(f: ArchiveFile, files: seq<ArchiveFile>): seq<ArchiveFile>
  {
    if files == [] || !KeyBefore(files[0], f) then [f] + files else [files[0]] + Insert(f, files[1..])
  }

  /** A stable sort by that key, as Python's `sorted`. */
  function Sorted(files: seq<ArchiveFile>): seq<ArchiveFile>
  {
    if files == [] then [] else Insert(files[0], Sorted(files[1..]))
  }

  datatype CalendarError = DateOverflow

  method DaysBetween(w: Window, pair: Pair, from: Date, to: Date) returns (files: seq<ArchiveFile>)
    requires ValidDate(from) && ValidDate(to) && !EndOfTime(to)
    ensures files == DailyFiles(w, pair, from, to)
  {
    files := [];
    var cursor := from;
    while AtMost(cursor, to)
      invariant ValidDate(cursor)
      invariant DailyFiles(w, pair, from, to) == files + DailyFiles(w, pair, cursor, to)
      decreases Ordinal(to) - Ordinal(cursor) + 1
    {
      OrderIsOrdinal(cursor, to);
      NextDayOrdinal(cursor);
      files := files + [DailyFile(w, pair, cursor)];
      cursor := NextDay(cursor);
    }
  }

  /** last + timedelta(days=7) raises. */
  predicate LagOverflows(last: Date)
    requires ValidDate(last)
  {
    Ordinal(last) + MONTHLY_PUBLICATION_LAG_DAYS > Ordinal(LAST_DATE)
  }

  lemma LagOverflowsExactlyWhen(first: Date)
    requires ValidDate(first) && first.day == 1
    ensures LagOverflows(LastOfMonth(first)) <==> EndOfTime(first)
  {
    if !EndOfTime(first) {
      OrderIsOrdinal(LastOfMonth(first), Date(MAX_YEAR, 11, 30));
    }
  }

  /** The body of the month loop. */
  method FilesOfMonth(w: Window, pair: Pair, first: Date) returns (result: Result<seq<ArchiveFile>, CalendarError>)
    requires ValidWindow(w) && ValidDate(first) && first.day == 1 && AtMost(first, w.end)
    ensures result.Err? <==> EndOfTime(first)
    ensures !EndOfTime(w.end) ==> result == Ok(MonthFiles(w, pair, first))
  {
    var last := LastOfMonth(first);
    LagOverflowsExactlyWhen(first);
    if LagOverflows(last) {
      return Err(DateOverflow);
    }
    var files: seq<ArchiveFile>;
    if MonthlyUsable(w, first, last) {
      files := [MonthlyFile(w, pair, first)];
    } else {
      files := DaysBetween(w, pair, Later(first, w.start), Earlier(last, w.end));
    }
    result := Ok(files);
  }

  lemma PeelMonth(w: Window, pair: Pair, first: Date, files: seq<ArchiveFile>)
    requires ValidWindow(w) && !EndOfTime(w.end) && ValidDate(first) && first.day == 1 && AtMost(first, w.end)
    ensures ValidDate(NextMonth(first)) && NextMonth(first).day == 1
    ensures files + FilesFrom(w, pair, first)
            == (files + MonthFiles(w, pair, first)) + FilesFrom(w, pair, NextMonth(first))
  {
    AppendAssociates(files, MonthFiles(w, pair, first), FilesFrom(w, pair, NextMonth(first)));
  }

  /** One instrument's turn of the outer loop: every calendar month touching the window. */
  method MonthsBetween(w: Window, pair: Pair) returns (result: Result<seq<ArchiveFile>, CalendarError>)
    requires ValidWindow(w)
    ensures result.Err? <==> EndOfTime(w.end)
    ensures !EndOfTime(w.end) ==> result == Ok(InstrumentFiles(w, pair))
  {
    var files: seq<ArchiveFile>, first := [], FirstOfMonth(w.start);
    while AtMost(first, w.end)
      invariant ValidDate(first) && first.day == 1
      invariant EndOfTime(w.end) ==> AtMost(first, w.end)
      invariant !EndOfTime(w.end) ==> InstrumentFiles(w, pair) == files + FilesFrom(w, pair, first)
      decreases MonthsLeft(w, first)
    {
      var month := FilesOfMonth(w, pair, first);
      if month.Err? {
        return month;
      }
      if !EndOfTime(w.end) {
        PeelMonth(w, pair, first, files);
      }
      files := files + month.value;
      first := NextMonth(first);
    }
    assert files + [] == files;
    result := Ok(files);
  }

  /** files_for_window. Date arithmetic past 31 December 9999 raises, which can only happen when a window
      with instruments reaches into the last month of the calendar. */
  method FilesForWindow(pairs: seq<Pair>, tier: Tier, start: Date, end: Date, today: Date)
    returns (result: Result<seq<ArchiveFile>, CalendarError>)
    requires ValidDate(start) && ValidDate(end) && ValidDate(today)
    ensures Before(end, start) ==> result == Ok([])
    ensures AtMost(start, end) ==> (result.Err? <==> pairs != [] && EndOfTime(end))
    ensures AtMost(start, end) && !EndOfTime(end) ==>
              result == Ok(Sorted(AllFiles(Window(tier, start, end, today), pairs)))
  {
    OrderIsOrdinal(start, end);
    if Before(end, start) {
      return Ok([]);
    }
    var w := Window(tier, start, end, today);
    var files: seq<ArchiveFile> := [];
    for i := 0 to |pairs|
      invariant !EndOfTime(end) ==> files == AllFiles(w, pairs[..i])
      invariant EndOfTime(end) ==> i == 0
    {
      assert pairs[..i + 1][..i] == pairs[..i];
      var more := MonthsBetween(w, pairs[i]);
      if more.Err? {
        return Err(more.error);
      }
      files := files + more.value;
    }
    assert pairs[..|pairs|] == pairs;
    result := Ok(Sorted(files));
  }
}
