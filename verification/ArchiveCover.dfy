/** The plan covers its window exactly, and with as few files as the archive allows. */
module ArchiveCover {
  import opened Prelude
  import opened Calendar
  import opened ArchivePlan

  predicate ValidFile(f: ArchiveFile) { ValidDate(f.dt) && (f.granularity.Monthly? ==> f.dt.day == 1) }

  /** The last date a file covers. */
  function LastDate(f: ArchiveFile): Date { if f.granularity.Daily? then f.dt else LastOfMonth(f.dt) }

  predicate Covers(f: ArchiveFile, x: int)
    requires ValidFile(f)
  {
    Ordinal(f.dt) <= x <= Ordinal(LastDate(f))
  }

  /** A file that may be used for the window: any daily file, or a monthly file of which every day lies inside
      the window and which is surely there, its month having ended seven days ago. */
  predicate Permitted(w: Window, f: ArchiveFile)
    requires ValidWindow(w)
  {
    ValidFile(f) &&
    (f.granularity.Monthly? ==>
      && Ordinal(w.start) <= Ordinal(f.dt) && Ordinal(LastDate(f)) <= Ordinal(w.end)
      && Ordinal(LastDate(f)) + 7 <= Ordinal(w.today))
  }

  /** The planner's test, made on dates, admits exactly those months. */
  lemma UsableExactlyWhenPermitted(w: Window, f: ArchiveFile)
    requires ValidWindow(w) && ValidFile(f) && f.granularity.Monthly?
    ensures MonthlyUsable(w, f.dt, LastOfMonth(f.dt)) <==> Permitted(w, f)
  {
    OrderIsOrdinal(w.start, f.dt);
    OrderIsOrdinal(LastDate(f), w.end);
  }

  /** Why seven days: that is the least wait after which a Monday has passed, whatever day the month ended on. */
  lemma LagIsLeast(lag: nat)
    ensures lag >= 7 <==> forall last :: HasMonday(last, lag)
  {
    if lag >= 7 {
      forall last ensures HasMonday(last, lag) {
        var monday := SevenDaysHaveAMonday(last);
      }
    } else {
      assert !HasMonday(7 * 100 + 1, lag);
    }
  }

  /** One of the `lag` days after day `last` is a Monday. */
  ghost predicate HasMonday(last: int, lag: nat) { exists monday :: last < monday <= last + lag && Weekday(monday) == 0 }


  predicate AllValid(files: seq<ArchiveFile>) { forall i :: 0 <= i < |files| ==> ValidFile(files[i]) }

  /** First and last day number of each file. */
  function Spans(files: seq<ArchiveFile>): seq<(int, int)>
    requires AllValid(files)
  {
    seq(|files|, i requires 0 <= i < |files| => (Ordinal(files[i].dt), Ordinal(LastDate(files[i]))))
  }

  /** Spans that follow one another without gap or overlap from `lo` to `hi`. */
  predicate Chain(spans: seq<(int, int)>, lo: int, hi: int)
  {
    if spans == [] then lo == hi + 1
    else spans[0].0 == lo && lo <= spans[0].1 && Chain(spans[1..], spans[0].1 + 1, hi)
  }

  /** The files' spans follow one another without gap or overlap from day `lo` to day `hi`. */
  predicate Tiles(files: seq<ArchiveFile>, lo: int, hi: int)
  {
    AllValid(files) && Chain(Spans(files), lo, hi)
  }

  lemma {:induction false} ChainAppend(a: seq<(int, int)>, b: seq<(int, int)>, lo: int, mid: int, hi: int)
    requires Chain(a, lo, mid) && Chain(b, mid + 1, hi)
    ensures Chain(a + b, lo, hi)
  {
    if a == [] {
      assert a + b == b;
    } else {
      ChainAppend(a[1..], b, a[0].1 + 1, mid, hi);
      assert (a + b)[1..] == a[1..] + b;
    }
  }

  lemma {:induction false} ChainBounds(spans: seq<(int, int)>, lo: int, hi: int, i: int)
    requires Chain(spans, lo, hi) && 0 <= i < |spans|
    ensures lo <= spans[i].0 <= spans[i].1 <= hi
  {
    if i > 0 {
      ChainBounds(spans[1..], spans[0].1 + 1, hi, i - 1);
    } else if |spans| > 1 {
      ChainBounds(spans[1..], spans[0].1 + 1, hi, 0);
    }
  }

  lemma {:induction false} ChainOrdered(spans: seq<(int, int)>, lo: int, hi: int, i: int, j: int)
    requires Chain(spans, lo, hi) && 0 <= i < j < |spans|
    ensures spans[i].0 <= spans[i].1 < spans[j].0
  {
    if i == 0 {
      ChainBounds(spans[1..], spans[0].1 + 1, hi, j - 1);
    } else {
      ChainOrdered(spans[1..], spans[0].1 + 1, hi, i - 1, j - 1);
    }
  }

  lemma {:induction false} ChainReach(spans: seq<(int, int)>, lo: int, hi: int, x: int) returns (i: int)
    requires Chain(spans, lo, hi) && lo <= x <= hi
    ensures 0 <= i < |spans| && spans[i].0 <= x <= spans[i].1
  {
    if x <= spans[0].1 {
      i := 0;
    } else {
      i := ChainReach(spans[1..], spans[0].1 + 1, hi, x);
      i := i + 1;
    }
  }

  lemma SpansAppend(a: seq<ArchiveFile>, b: seq<ArchiveFile>)
    requires AllValid(a) && AllValid(b)
    ensures AllValid(a + b) && Spans(a + b) == Spans(a) + Spans(b)
  {
    forall i | 0 <= i < |a + b| ensures ValidFile((a + b)[i]) && (a + b)[i] == if i < |a| then a[i] else b[i - |a|] {
    }
  }

  lemma TilesAppend(a: seq<ArchiveFile>, b: seq<ArchiveFile>, lo: int, mid: int, hi: int)
    requires Tiles(a, lo, mid) && Tiles(b, mid + 1, hi)
    ensures Tiles(a + b, lo, hi)
  {
    SpansAppend(a, b);
    ChainAppend(Spans(a), Spans(b), lo, mid, hi);
  }

  lemma TileOne(f: ArchiveFile)
    requires ValidFile(f)
    ensures Tiles([f], Ordinal(f.dt), Ordinal(LastDate(f)))
  {
    OrderIsOrdinal(f.dt, LastDate(f));
    assert Spans([f])[1..] == [];
  }

  lemma {:induction false} DailyFilesTile(w: Window, pair: Pair, from: Date, to: Date)
    requires ValidDate(from) && ValidDate(to) && !EndOfTime(to) && Ordinal(from) <= Ordinal(to) + 1
    ensures Tiles(DailyFiles(w, pair, from, to), Ordinal(from), Ordinal(to))
    decreases Ordinal(to) - Ordinal(from) + 1
  {
    OrderIsOrdinal(from, to);
    if AtMost(from, to) {
      NextDayOrdinal(from);
      DailyFilesTile(w, pair, NextDay(from), to);
      TileOne(DailyFile(w, pair, from));
      TilesAppend([DailyFile(w, pair, from)], DailyFiles(w, pair, NextDay(from), to),
                  Ordinal(from), Ordinal(from), Ordinal(to));
    }
  }

  lemma {:induction false} MonthFilesTile(w: Window, pair: Pair, first: Date)
    requires ValidWindow(w) && !EndOfTime(w.end) && ValidDate(first) && first.day == 1
    requires AtMost(first, w.end) && AtMost(FirstOfMonth(w.start), first)
    ensures Tiles(MonthFiles(w, pair, first),
                  Ordinal(Later(first, w.start)), Ordinal(Earlier(LastOfMonth(first), w.end)))
  {
    var last := LastOfMonth(first);
    if MonthlyUsable(w, first, last) {
      assert Later(first, w.start) == first && Earlier(last, w.end) == last;
      TileOne(MonthlyFile(w, pair, first));
    } else {
      OrderIsOrdinal(Later(first, w.start), Earlier(last, w.end));
      DailyFilesTile(w, pair, Later(first, w.start), Earlier(last, w.end));
    }
  }

  /** What the month cursor's step keeps. */
  lemma MonthStep(w: Window, first: Date)
    requires ValidWindow(w) && !EndOfTime(w.end) && ValidDate(first) && first.day == 1
    requires AtMost(first, w.end) && AtMost(FirstOfMonth(w.start), first)
    ensures var last, next := LastOfMonth(first), NextMonth(first);
            && ValidDate(last) && ValidDate(next) && next.day == 1 && Ordinal(next) == Ordinal(last) + 1
            && AtMost(FirstOfMonth(w.start), next) && Later(next, w.start) == next
            && Earlier(last, w.end) == (if AtMost(next, w.end) then last else w.end)
            && MonthsLeft(w, next) < MonthsLeft(w, first)
  {
    NextDayOrdinal(LastOfMonth(first));
  }

  lemma {:induction false} FilesFromTile(w: Window, pair: Pair, first: Date)
    requires ValidWindow(w) && !EndOfTime(w.end) && ValidDate(first) && first.day == 1
    requires AtMost(first, w.end) && AtMost(FirstOfMonth(w.start), first)
    ensures Tiles(FilesFrom(w, pair, first), Ordinal(Later(first, w.start)), Ordinal(w.end))
    decreases MonthsLeft(w, first)
  {
    var month, next := MonthFiles(w, pair, first), NextMonth(first);
    MonthFilesTile(w, pair, first);
    MonthStep(w, first);
    assert FilesFrom(w, pair, first) == month + FilesFrom(w, pair, next);
    if AtMost(next, w.end) {
      FilesFromTile(w, pair, next);
      TilesAppend(month, FilesFrom(w, pair, next), Ordinal(Later(first, w.start)), Ordinal(LastOfMonth(first)), Ordinal(w.end));
    } else {
      assert month + [] == month;
    }
  }

  /** One instrument's files tile the window from its first day to its last. */
  lemma WindowIsTiled(w: Window, pair: Pair)
    requires ValidWindow(w) && !EndOfTime(w.end)
    ensures Tiles(InstrumentFiles(w, pair), Ordinal(w.start), Ordinal(w.end))
  {
    FilesFromTile(w, pair, FirstOfMonth(w.start));
  }

  // What a tiling means day by day.

  lemma TilesAreValid(files: seq<ArchiveFile>, lo: int, hi: int, i: int)
    requires Tiles(files, lo, hi) && 0 <= i < |files|
    ensures ValidFile(files[i]) && lo <= Ordinal(files[i].dt) <= Ordinal(LastDate(files[i])) <= hi
  {
    ChainBounds(Spans(files), lo, hi, i);
  }

  lemma TilesAreOrdered(files: seq<ArchiveFile>, lo: int, hi: int, i: int, j: int)
    requires Tiles(files, lo, hi) && 0 <= i < j < |files|
    ensures ValidFile(files[i]) && ValidFile(files[j])
    ensures Ordinal(files[i].dt) <= Ordinal(LastDate(files[i])) < Ordinal(files[j].dt)
  {
    ChainOrdered(Spans(files), lo, hi, i, j);
  }

  ghost predicate CoversAt(files: seq<ArchiveFile>, i: int, x: int)
  {
    0 <= i < |files| && ValidFile(files[i]) && Covers(files[i], x)
  }

  lemma TiledOnce(files: seq<ArchiveFile>, lo: int, hi: int, x: int)
    requires Tiles(files, lo, hi)
    ensures lo <= x <= hi <==> exists i :: CoversAt(files, i, x)
    ensures forall i, j :: CoversAt(files, i, x) && CoversAt(files, j, x) ==> i == j
  {
    if lo <= x <= hi {
      var i := ChainReach(Spans(files), lo, hi, x);
      assert CoversAt(files, i, x);
    }
    forall i | CoversAt(files, i, x) ensures lo <= x <= hi {
      TilesAreValid(files, lo, hi, i);
    }
    forall i, j | CoversAt(files, i, x) && CoversAt(files, j, x) ensures i == j {
      if i < j {
        TilesAreOrdered(files, lo, hi, i, j);
      } else if j < i {
        TilesAreOrdered(files, lo, hi, j, i);
      }
    }
  }

  // The instrument's files within the sorted plan.

  function FilesOf(files: seq<ArchiveFile>, id: string): seq<ArchiveFile>
  {
    if files == [] then [] else
    if files[0].instrumentId == id then [files[0]] + FilesOf(files[1..], id) else FilesOf(files[1..], id)
  }

  lemma {:induction false} FilesOfAppend(a: seq<ArchiveFile>, b: seq<ArchiveFile>, id: string)
    ensures FilesOf(a + b, id) == FilesOf(a, id) + FilesOf(b, id)
  {
    if a == [] {
      assert a + b == b;
    } else {
      FilesOfAppend(a[1..], b, id);
      assert (a + b)[0] == a[0] && (a + b)[1..] == a[1..] + b;
      AppendAssociates([a[0]], FilesOf(a[1..], id), FilesOf(b, id));
    }
  }

  lemma {:induction false} TextTotal(a: string, b: string)
    ensures !(TextBefore(a, b) && TextBefore(b, a))
    ensures TextBefore(a, b) || TextBefore(b, a) || a == b
    ensures !TextBefore(a, a)
  {
    if a != [] && b != [] && a[0] == b[0] {
      TextTotal(a[1..], b[1..]);
      assert a == [a[0]] + a[1..] && b == [b[0]] + b[1..];
    }
    if a != [] {
      TextTotal(a[1..], a[1..]);
    }
  }

  lemma {:induction false} TextTransitive(a: string, b: string, c: string)
    requires TextBefore(a, b) && TextBefore(b, c)
    ensures TextBefore(a, c)
  {
    if a != [] && a[0] == b[0] == c[0] {
      TextTransitive(a[1..], b[1..], c[1..]);
    }
  }

  /** The first difference decides, and a text comes before its continuations. */
  ghost predicate Precedes(a: string, b: string)
  {
    exists n: nat :: DiffersAt(a, b, n)
  }

  predicate DiffersAt(a: string, b: string, n: nat)
  {
    n <= |a| && n < |b| && a[..n] == b[..n] && (n == |a| || a[n] < b[n])
  }

  lemma DiffersLater(a: string, b: string, n: nat)
    requires a != [] && b != [] && a[0] == b[0]
    ensures DiffersAt(a[1..], b[1..], n) <==> DiffersAt(a, b, n + 1)
  {
    if n < |a| && n + 1 < |b| {
      assert a[..n + 1] == [a[0]] + a[1..][..n] && b[..n + 1] == [b[0]] + b[1..][..n];
    }
  }

  lemma SameUntil(a: string, b: string, n: nat)
    ensures DiffersAt(a, b, n) && n > 0 ==> a != [] && b != [] && a[0] == b[0]
  {
    if DiffersAt(a, b, n) && n > 0 {
      assert a[0] == a[..n][0] == b[..n][0] == b[0];
    }
  }

  lemma {:induction false} TextBeforeIsLexicographic(a: string, b: string)
    ensures TextBefore(a, b) <==> Precedes(a, b)
  {
    if a != [] && b != [] && a[0] == b[0] {
      TextBeforeIsLexicographic(a[1..], b[1..]);
      forall n: nat ensures DiffersAt(a[1..], b[1..], n) <==> DiffersAt(a, b, n + 1) { DiffersLater(a, b, n); }
      assert !DiffersAt(a, b, 0);
      forall n: nat | DiffersAt(a, b, n) ensures Precedes(a[1..], b[1..]) {
        assert DiffersAt(a[1..], b[1..], n - 1);
      }
    } else if TextBefore(a, b) {
      assert DiffersAt(a, b, 0);
    } else {
      forall n: nat ensures !DiffersAt(a, b, n) { SameUntil(a, b, n); }
    }
  }

  /** The sort key is a strict weak order: "not after" is transitive. */
  lemma NotAfterTransitive(f: ArchiveFile, g: ArchiveFile, h: ArchiveFile)
    requires !KeyBefore(g, f) && !KeyBefore(h, g)
    ensures !KeyBefore(h, f)
  {
    TextTotal(f.instrumentId, g.instrumentId);
    TextTotal(g.instrumentId, h.instrumentId);
    TextTotal(f.instrumentId, h.instrumentId);
    if TextBefore(f.instrumentId, g.instrumentId) && TextBefore(g.instrumentId, h.instrumentId) {
      TextTransitive(f.instrumentId, g.instrumentId, h.instrumentId);
    }
  }

  predicate InOrder(files: seq<ArchiveFile>)
  {
    forall i, j :: 0 <= i < j < |files| ==> !KeyBefore(files[j], files[i])
  }

  lemma KeyBeforeIsAsymmetric(f: ArchiveFile, g: ArchiveFile)
    requires KeyBefore(f, g)
    ensures !KeyBefore(g, f)
  {
    TextTotal(f.instrumentId, g.instrumentId);
  }

  lemma {:induction false} InsertAdds(f: ArchiveFile, files: seq<ArchiveFile>)
    ensures multiset(Insert(f, files)) == multiset(files) + multiset{f}
  {
    if files != [] && KeyBefore(files[0], f) {
      InsertAdds(f, files[1..]);
      assert files == [files[0]] + files[1..];
    }
  }

  lemma InFrontKeepsOrder(f: ArchiveFile, files: seq<ArchiveFile>)
    requires InOrder(files) && forall j :: 0 <= j < |files| ==> !KeyBefore(files[j], f)
    ensures InOrder([f] + files)
  {
  }

  lemma {:induction false} InsertKeepsOrder(f: ArchiveFile, files: seq<ArchiveFile>)
    requires InOrder(files)
    ensures InOrder(Insert(f, files))
  {
    if files == [] || !KeyBefore(files[0], f) {
      forall j | 0 <= j < |files| ensures !KeyBefore(files[j], f) {
        if j > 0 {
          NotAfterTransitive(f, files[0], files[j]);
        }
      }
      InFrontKeepsOrder(f, files);
    } else {
      var tail := files[1..];
      var rest := Insert(f, tail);
      InsertKeepsOrder(f, tail);
      InsertAdds(f, tail);
      forall j | 0 <= j < |rest| ensures !KeyBefore(rest[j], files[0]) {
        assert rest[j] in multiset(rest);
        if rest[j] == f {
          KeyBeforeIsAsymmetric(files[0], f);
        } else {
          assert rest[j] in multiset(tail);
          var k :| 0 <= k < |tail| && tail[k] == rest[j];
          assert files[k + 1] == rest[j];
        }
      }
      InFrontKeepsOrder(files[0], rest);
    }
  }

  lemma {:induction false} SortedIsInOrder(files: seq<ArchiveFile>)
    ensures InOrder(Sorted(files)) && multiset(Sorted(files)) == multiset(files)
  {
    if files != [] {
      SortedIsInOrder(files[1..]);
      InsertKeepsOrder(files[0], Sorted(files[1..]));
      InsertAdds(files[0], Sorted(files[1..]));
      assert files == [files[0]] + files[1..];
    }
  }

  lemma {:induction false} SortedFixesOrdered(files: seq<ArchiveFile>)
    requires InOrder(files)
    ensures Sorted(files) == files
  {
    if files != [] {
      SortedFixesOrdered(files[1..]);
      assert |files| > 1 ==> files[1..][0] == files[1];
    }
  }

  /** Stability: taking one instrument's files commutes with insertion, hence with sorting. */
  lemma {:induction false} FilesOfInsert(f: ArchiveFile, files: seq<ArchiveFile>, id: string)
    requires InOrder(files)
    ensures FilesOf(Insert(f, files), id) == if f.instrumentId == id then Insert(f, FilesOf(files, id)) else FilesOf(files, id)
  {
    if files == [] || !KeyBefore(files[0], f) {
      assert ([f] + files)[1..] == files;
      var mine := FilesOf(files, id);
      if f.instrumentId == id && mine != [] {
        FilesOfHead(files, id);
        if mine[0] != files[0] {
          NotAfterTransitive(f, files[0], mine[0]);
        }
      }
    } else {
      FilesOfInsert(f, files[1..], id);
      assert ([files[0]] + Insert(f, files[1..]))[1..] == Insert(f, files[1..]);
      if files[0].instrumentId == id {
        assert FilesOf(files, id)[1..] == FilesOf(files[1..], id);
      }
    }
  }

  lemma {:induction false} FilesOfHead(files: seq<ArchiveFile>, id: string)
    requires FilesOf(files, id) != []
    ensures exists i :: 0 <= i < |files| && files[i] == FilesOf(files, id)[0]
  {
    if files[0].instrumentId != id {
      FilesOfHead(files[1..], id);
      var i :| 0 <= i < |files[1..]| && files[1..][i] == FilesOf(files[1..], id)[0];
      assert files[i + 1] == FilesOf(files, id)[0];
    }
  }

  lemma {:induction false} FilesOfSorted(files: seq<ArchiveFile>, id: string)
    ensures FilesOf(Sorted(files), id) == Sorted(FilesOf(files, id))
  {
    if files != [] {
      FilesOfSorted(files[1..], id);
      SortedIsInOrder(files[1..]);
      FilesOfInsert(files[0], Sorted(files[1..]), id);
      if files[0].instrumentId == id {
        assert FilesOf(files, id)[1..] == FilesOf(files[1..], id);
      }
    }
  }

  predicate DistinctInstruments(pairs: seq<Pair>)
  {
    forall i, j :: 0 <= i < j < |pairs| ==> pairs[i].0 != pairs[j].0
  }

  lemma {:induction false} DailyFilesFacts(w: Window, pair: Pair, from: Date, to: Date, i: int)
    requires ValidDate(from) && ValidDate(to) && !EndOfTime(to) && 0 <= i < |DailyFiles(w, pair, from, to)|
    ensures var f := DailyFiles(w, pair, from, to)[i];
            ValidDate(f.dt) && f == DailyFile(w, pair, f.dt)
    decreases Ordinal(to) - Ordinal(from) + 1
  {
    OrderIsOrdinal(from, to);
    NextDayOrdinal(from);
    if i > 0 {
      DailyFilesFacts(w, pair, NextDay(from), to, i - 1);
    }
  }

  /** Every planned file is permitted, carries the instrument's names, and is the archive's file of its day
      or month. */
  lemma {:induction false} PlannedFileFacts(w: Window, pair: Pair, first: Date, i: int)
    requires ValidWindow(w) && !EndOfTime(w.end) && ValidDate(first) && first.day == 1
    requires 0 <= i < |FilesFrom(w, pair, first)|
    ensures var f := FilesFrom(w, pair, first)[i];
            && Permitted(w, f)
            && f == if f.granularity.Daily? then DailyFile(w, pair, f.dt) else MonthlyFile(w, pair, f.dt)
    decreases MonthsLeft(w, first)
  {
    var month := MonthFiles(w, pair, first);
    if i < |month| {
      if MonthlyUsable(w, first, LastOfMonth(first)) {
        UsableExactlyWhenPermitted(w, MonthlyFile(w, pair, first));
      } else {
        DailyFilesFacts(w, pair, Later(first, w.start), Earlier(LastOfMonth(first), w.end), i);
      }
    } else {
      PlannedFileFacts(w, pair, NextMonth(first), i - |month|);
    }
  }

  lemma InstrumentOnly(files: seq<ArchiveFile>, id: string, other: string)
    requires forall f <- files :: f.instrumentId == id
    ensures FilesOf(files, other) == if other == id then files else []
  {
    if files != [] {
      InstrumentOnly(files[1..], id, other);
    }
  }

  lemma FilesOfInstrument(w: Window, pair: Pair, id: string)
    requires ValidWindow(w) && !EndOfTime(w.end)
    ensures FilesOf(InstrumentFiles(w, pair), id) == if id == pair.0 then InstrumentFiles(w, pair) else []
  {
    forall f | f in InstrumentFiles(w, pair) ensures f.instrumentId == pair.0 {
      var i :| 0 <= i < |InstrumentFiles(w, pair)| && InstrumentFiles(w, pair)[i] == f;
      PlannedFileFacts(w, pair, FirstOfMonth(w.start), i);
    }
    InstrumentOnly(InstrumentFiles(w, pair), pair.0, id);
  }

  /** The last instrument's files come after everybody else's. */
  lemma FilesOfLast(w: Window, pairs: seq<Pair>, id: string)
    requires ValidWindow(w) && !EndOfTime(w.end) && pairs != []
    ensures var n := |pairs| - 1;
            FilesOf(AllFiles(w, pairs), id)
            == FilesOf(AllFiles(w, pairs[..n]), id) + if id == pairs[n].0 then InstrumentFiles(w, pairs[n]) else []
  {
    var n := |pairs| - 1;
    FilesOfAppend(AllFiles(w, pairs[..n]), InstrumentFiles(w, pairs[n]), id);
    FilesOfInstrument(w, pairs[n], id);
  }

  lemma {:induction false} FilesOfAll(w: Window, pairs: seq<Pair>, k: int)
    requires ValidWindow(w) && !EndOfTime(w.end) && DistinctInstruments(pairs) && 0 <= k < |pairs|
    ensures FilesOf(AllFiles(w, pairs), pairs[k].0) == InstrumentFiles(w, pairs[k])
  {
    var n := |pairs| - 1;
    var mine := InstrumentFiles(w, pairs[k]);
    FilesOfLast(w, pairs, pairs[k].0);
    if k < n {
      FilesOfAll(w, pairs[..n], k);
      assert mine + [] == mine;
    } else {
      FilesOfStranger(w, pairs[..n], pairs[n].0);
      assert [] + mine == mine;
    }
  }

  lemma {:induction false} FilesOfStranger(w: Window, pairs: seq<Pair>, id: string)
    requires ValidWindow(w) && !EndOfTime(w.end) && forall pair <- pairs :: pair.0 != id
    ensures FilesOf(AllFiles(w, pairs), id) == []
  {
    if pairs != [] {
      FilesOfStranger(w, pairs[..|pairs| - 1], id);
      FilesOfLast(w, pairs, id);
    }
  }

  lemma InstrumentFilesInOrder(w: Window, pair: Pair)
    requires ValidWindow(w) && !EndOfTime(w.end)
    ensures InOrder(InstrumentFiles(w, pair))
  {
    var files := InstrumentFiles(w, pair);
    WindowIsTiled(w, pair);
    forall i, j | 0 <= i < j < |files| ensures !KeyBefore(files[j], files[i]) {
      StartsIncrease(w, pair, i, j);
    }
  }

  lemma StartsIncrease(w: Window, pair: Pair, i: int, j: int)
    requires ValidWindow(w) && !EndOfTime(w.end) && 0 <= i < j < |InstrumentFiles(w, pair)|
    ensures var files := InstrumentFiles(w, pair);
            KeyBefore(files[i], files[j]) && !KeyBefore(files[j], files[i]) && files[i].dt != files[j].dt
  {
    var files := InstrumentFiles(w, pair);
    WindowIsTiled(w, pair);
    TilesAreOrdered(files, Ordinal(w.start), Ordinal(w.end), i, j);
    OrderIsOrdinal(files[i].dt, files[j].dt);
    PlannedFileFacts(w, pair, FirstOfMonth(w.start), i);
    PlannedFileFacts(w, pair, FirstOfMonth(w.start), j);
    TextTotal(pair.0, pair.0);
  }

  /** Exact cover. In the sorted plan of distinct instruments, each instrument's files, in plan order, are
      the tiling of the window; so every day of the window is covered by exactly one of them and no day
      outside it by any. */
  lemma PlanCoversExactly(w: Window, pairs: seq<Pair>, k: int, x: int)
    requires ValidWindow(w) && !EndOfTime(w.end) && DistinctInstruments(pairs) && 0 <= k < |pairs|
    ensures var mine := FilesOf(Sorted(AllFiles(w, pairs)), pairs[k].0);
            && Tiles(mine, Ordinal(w.start), Ordinal(w.end))
            && (Ordinal(w.start) <= x <= Ordinal(w.end) <==> exists i :: CoversAt(mine, i, x))
            && (forall i, j :: CoversAt(mine, i, x) && CoversAt(mine, j, x) ==> i == j)
  {
    PlanOfInstrument(w, pairs, k);
    WindowIsTiled(w, pairs[k]);
    TiledOnce(InstrumentFiles(w, pairs[k]), Ordinal(w.start), Ordinal(w.end), x);
  }

  lemma {:induction false} PlanOfInstrument(w: Window, pairs: seq<Pair>, k: int)
    requires ValidWindow(w) && !EndOfTime(w.end) && DistinctInstruments(pairs) && 0 <= k < |pairs|
    ensures FilesOf(Sorted(AllFiles(w, pairs)), pairs[k].0) == InstrumentFiles(w, pairs[k])
  {
    FilesOfSorted(AllFiles(w, pairs), pairs[k].0);
    FilesOfAll(w, pairs, k);
    InstrumentFilesInOrder(w, pairs[k]);
    SortedFixesOrdered(InstrumentFiles(w, pairs[k]));
  }

  lemma {:induction false} AllFilesBelong(w: Window, pairs: seq<Pair>, f: ArchiveFile)
    requires ValidWindow(w) && !EndOfTime(w.end) && f in AllFiles(w, pairs)
    ensures exists k :: 0 <= k < |pairs| && f in InstrumentFiles(w, pairs[k])
  {
    var n := |pairs| - 1;
    if f in AllFiles(w, pairs[..n]) {
      AllFilesBelong(w, pairs[..n], f);
      var k :| 0 <= k < n && f in InstrumentFiles(w, pairs[..n][k]);
      assert f in InstrumentFiles(w, pairs[k]);
    } else {
      assert f in InstrumentFiles(w, pairs[n]);
    }
  }

  /** No file of the plan is foreign: each belongs to a requested instrument, may be named, and a monthly one
      is inside the window and was published, its month's first Monday being past. */
  lemma PlannedFilesArePublished(w: Window, pairs: seq<Pair>, f: ArchiveFile)
    requires ValidWindow(w) && !EndOfTime(w.end) && f in Sorted(AllFiles(w, pairs))
    ensures exists k :: 0 <= k < |pairs| && f in InstrumentFiles(w, pairs[k])
    ensures Permitted(w, f)
    ensures f.granularity.Monthly? ==>
              && AtMost(w.start, f.dt) && AtMost(LastDate(f), w.end)
              && exists monday :: Ordinal(LastDate(f)) < monday <= Ordinal(w.today) && Weekday(monday) == 0
                                  && monday <= Ordinal(LastDate(f)) + 7
  {
    SortedIsInOrder(AllFiles(w, pairs));
    assert f in multiset(Sorted(AllFiles(w, pairs)));
    AllFilesBelong(w, pairs, f);
    var k :| 0 <= k < |pairs| && f in InstrumentFiles(w, pairs[k]);
    var i :| 0 <= i < |InstrumentFiles(w, pairs[k])| && InstrumentFiles(w, pairs[k])[i] == f;
    PlannedFileFacts(w, pairs[k], FirstOfMonth(w.start), i);
    if f.granularity.Monthly? {
      MondayHasPassed(w, f);
    }
  }

  lemma MondayHasPassed(w: Window, f: ArchiveFile)
    requires ValidWindow(w) && Permitted(w, f) && f.granularity.Monthly?
    ensures AtMost(w.start, f.dt) && AtMost(LastDate(f), w.end)
    ensures exists monday :: Ordinal(LastDate(f)) < monday <= Ordinal(w.today) && Weekday(monday) == 0
                             && monday <= Ordinal(LastDate(f)) + 7
  {
    OrderIsOrdinal(w.start, f.dt);
    OrderIsOrdinal(LastDate(f), w.end);
    var monday := SevenDaysHaveAMonday(Ordinal(LastDate(f)));
  }

  lemma {:induction false} FilesOfPositions(files: seq<ArchiveFile>, id: string, i: int, j: int) returns (a: int, b: int)
    requires 0 <= i < j < |files| && files[i].instrumentId == id && files[j].instrumentId == id
    ensures 0 <= a < b < |FilesOf(files, id)| && FilesOf(files, id)[a] == files[i] && FilesOf(files, id)[b] == files[j]
  {
    if i > 0 {
      a, b := FilesOfPositions(files[1..], id, i - 1, j - 1);
      if files[0].instrumentId == id {
        a, b := a + 1, b + 1;
      }
    } else {
      a := 0;
      b := FilesOfPosition(files[1..], id, j - 1);
      b := b + 1;
    }
  }

  lemma {:induction false} FilesOfPosition(files: seq<ArchiveFile>, id: string, j: int) returns (b: int)
    requires 0 <= j < |files| && files[j].instrumentId == id
    ensures 0 <= b < |FilesOf(files, id)| && FilesOf(files, id)[b] == files[j]
  {
    if j == 0 {
      b := 0;
    } else {
      b := FilesOfPosition(files[1..], id, j - 1);
      if files[0].instrumentId == id {
        b := b + 1;
      }
    }
  }

  /** The plan is strictly ordered by (instrument, first day): no two files share a key. */
  lemma PlanIsStrictlyOrdered(w: Window, pairs: seq<Pair>, i: int, j: int)
    requires ValidWindow(w) && !EndOfTime(w.end) && DistinctInstruments(pairs)
    requires 0 <= i < j < |Sorted(AllFiles(w, pairs))|
    ensures var plan := Sorted(AllFiles(w, pairs));
            && KeyBefore(plan[i], plan[j]) && (plan[i].instrumentId, plan[i].dt) != (plan[j].instrumentId, plan[j].dt)
            && ValidFile(plan[i]) && ValidFile(plan[j])
            && (Precedes(plan[i].instrumentId, plan[j].instrumentId)
                || (plan[i].instrumentId == plan[j].instrumentId && Ordinal(plan[i].dt) < Ordinal(plan[j].dt)))
  {
    var plan := Sorted(AllFiles(w, pairs));
    SortedIsInOrder(AllFiles(w, pairs));
    TextTotal(plan[i].instrumentId, plan[j].instrumentId);
    TextBeforeIsLexicographic(plan[i].instrumentId, plan[j].instrumentId);
    PlannedFilesArePublished(w, pairs, plan[i]);
    PlannedFilesArePublished(w, pairs, plan[j]);
    OrderIsOrdinal(plan[i].dt, plan[j].dt);
    if plan[i].instrumentId == plan[j].instrumentId {
      var id := plan[i].instrumentId;
      var k :| 0 <= k < |pairs| && plan[i] in InstrumentFiles(w, pairs[k]);
      var n :| 0 <= n < |InstrumentFiles(w, pairs[k])| && InstrumentFiles(w, pairs[k])[n] == plan[i];
      PlannedFileFacts(w, pairs[k], FirstOfMonth(w.start), n);
      PlanOfInstrument(w, pairs, k);
      var a, b := FilesOfPositions(plan, id, i, j);
      StartsIncrease(w, pairs[k], a, b);
    }
  }

  // Minimality.

  /** A month's files start within it and the window. */
  lemma MonthFilesStartInMonth(w: Window, pair: Pair, first: Date, i: int)
    requires ValidWindow(w) && !EndOfTime(w.end) && ValidDate(first) && first.day == 1
    requires AtMost(first, w.end) && AtMost(FirstOfMonth(w.start), first)
    requires 0 <= i < |MonthFiles(w, pair, first)|
    ensures var f := MonthFiles(w, pair, first)[i];
            ValidFile(f) && Ordinal(first) <= Ordinal(f.dt) <= Ordinal(LastOfMonth(first))
  {
    MonthFilesTile(w, pair, first);
    TilesAreValid(MonthFiles(w, pair, first), Ordinal(Later(first, w.start)), Ordinal(Earlier(LastOfMonth(first), w.end)), i);
    OrderIsOrdinal(first, Later(first, w.start));
    OrderIsOrdinal(Earlier(LastOfMonth(first), w.end), LastOfMonth(first));
  }

  predicate StartsIn(f: ArchiveFile, month: Date)
    requires ValidDate(month)
  {
    ValidFile(f) && Ordinal(month) <= Ordinal(f.dt) <= Ordinal(LastOfMonth(month))
  }

  lemma UsableMonthFiles(w: Window, pair: Pair, first: Date, month: Date, f: ArchiveFile)
    requires ValidWindow(w) && !EndOfTime(w.end) && ValidDate(first) && first.day == 1 && AtMost(FirstOfMonth(w.start), first)
    requires ValidDate(month) && month.day == 1 && MonthlyUsable(w, month, LastOfMonth(month))
    requires AtMost(first, w.end) && f in MonthFiles(w, pair, first) && StartsIn(f, month)
    ensures f.dt == month
  {
    var i :| 0 <= i < |MonthFiles(w, pair, first)| && MonthFiles(w, pair, first)[i] == f;
    MonthFilesStartInMonth(w, pair, first, i);
    MonthsAreDisjoint(first, month, Ordinal(f.dt));
    assert MonthFiles(w, pair, first) == [MonthlyFile(w, pair, first)];
  }

  /** A month that may be read monthly is planned as that one file. */
  lemma {:induction false} UsableMonthIsOneFile(w: Window, pair: Pair, first: Date, month: Date, f: ArchiveFile)
    requires ValidWindow(w) && !EndOfTime(w.end) && ValidDate(first) && first.day == 1 && AtMost(FirstOfMonth(w.start), first)
    requires ValidDate(month) && month.day == 1 && MonthlyUsable(w, month, LastOfMonth(month))
    requires f in FilesFrom(w, pair, first) && StartsIn(f, month)
    ensures f.dt == month
    decreases MonthsLeft(w, first)
  {
    if f in MonthFiles(w, pair, first) {
      UsableMonthFiles(w, pair, first, month, f);
    } else {
      MonthStep(w, first);
      UsableMonthIsOneFile(w, pair, NextMonth(first), month, f);
    }
  }

  /** No permitted file covers the first day of two planned files. */
  lemma OneStartPerPermittedFile(w: Window, pair: Pair, f: ArchiveFile, i: int, j: int)
    requires ValidWindow(w) && !EndOfTime(w.end) && Permitted(w, f)
    requires 0 <= i < |InstrumentFiles(w, pair)| && 0 <= j < |InstrumentFiles(w, pair)|
    requires ValidFile(InstrumentFiles(w, pair)[i]) && Covers(f, Ordinal(InstrumentFiles(w, pair)[i].dt))
    requires ValidFile(InstrumentFiles(w, pair)[j]) && Covers(f, Ordinal(InstrumentFiles(w, pair)[j].dt))
    ensures i == j
  {
    var files := InstrumentFiles(w, pair);
    if f.granularity.Monthly? {
      UsableExactlyWhenPermitted(w, f);
      UsableMonthIsOneFile(w, pair, FirstOfMonth(w.start), f.dt, files[i]);
      UsableMonthIsOneFile(w, pair, FirstOfMonth(w.start), f.dt, files[j]);
      assert files[i].dt == files[j].dt;
    } else {
      OrderIsOrdinal(files[i].dt, files[j].dt);
    }
    if i < j {
      StartsIncrease(w, pair, i, j);
    } else if j < i {
      StartsIncrease(w, pair, j, i);
    }
  }

  lemma Pigeonhole(choice: seq<int>, n: int)
    requires forall i :: 0 <= i < |choice| ==> 0 <= choice[i] < n
    requires forall i, j :: 0 <= i < j < |choice| ==> choice[i] != choice[j]
    requires n >= 0
    ensures |choice| <= n
    decreases n
  {
    if choice != [] {
      var m := |choice| - 1;
      var shorter := seq(m, i requires 0 <= i < m => if choice[i] == n - 1 then choice[m] else choice[i]);
      Pigeonhole(shorter, n - 1);
    }
  }

  ghost predicate CoversDay(files: seq<ArchiveFile>, x: int) { exists i :: CoversAt(files, i, x) }

  ghost predicate CoversWindow(w: Window, files: seq<ArchiveFile>)
    requires ValidWindow(w)
  {
    forall x :: Ordinal(w.start) <= x <= Ordinal(w.end) ==> CoversDay(files, x)
  }

  ghost predicate CoversStart(files: seq<ArchiveFile>, c: int, f: ArchiveFile)
  {
    ValidFile(f) && CoversAt(files, c, Ordinal(f.dt))
  }

  ghost predicate StartIsCovered(other: seq<ArchiveFile>, f: ArchiveFile) { exists c :: CoversStart(other, c, f) }

  lemma StartsAreCovered(w: Window, pair: Pair, other: seq<ArchiveFile>)
    requires ValidWindow(w) && !EndOfTime(w.end) && CoversWindow(w, other)
    ensures forall f <- InstrumentFiles(w, pair) :: StartIsCovered(other, f)
  {
    var files := InstrumentFiles(w, pair);
    WindowIsTiled(w, pair);
    forall f | f in files ensures StartIsCovered(other, f) {
      var i :| 0 <= i < |files| && files[i] == f;
      TilesAreValid(files, Ordinal(w.start), Ordinal(w.end), i);
      assert CoversDay(other, Ordinal(f.dt));
      var c :| CoversAt(other, c, Ordinal(f.dt));
      assert CoversStart(other, c, f);
    }
  }

  /** Which of `other`'s files covers the first day of each of `files`. */
  lemma Choices(files: seq<ArchiveFile>, other: seq<ArchiveFile>) returns (choice: seq<int>)
    requires forall f <- files :: StartIsCovered(other, f)
    ensures |choice| == |files| && forall i :: 0 <= i < |files| ==> CoversStart(other, choice[i], files[i])
  {
    choice := [];
    for i := 0 to |files|
      invariant |choice| == i && forall k :: 0 <= k < i ==> CoversStart(other, choice[k], files[k])
    {
      assert StartIsCovered(other, files[i]);
      var c :| CoversStart(other, c, files[i]);
      choice := choice + [c];
    }
  }

  /** No smaller plan exists: any collection of permitted files that covers every day of the window has at
      least as many files as the planner names for an instrument. */
  lemma PlanIsMinimal(w: Window, pair: Pair, other: seq<ArchiveFile>)
    requires ValidWindow(w) && !EndOfTime(w.end) && CoversWindow(w, other)
    requires forall f <- other :: Permitted(w, f)
    ensures |InstrumentFiles(w, pair)| <= |other|
  {
    var n := |InstrumentFiles(w, pair)|;
    StartsAreCovered(w, pair, other);
    var choice := Choices(InstrumentFiles(w, pair), other);
    assert forall i :: 0 <= i < n ==> CoversStart(other, choice[i], InstrumentFiles(w, pair)[i]);
    forall i, j | 0 <= i < j < n ensures choice[i] != choice[j] {
      if choice[i] == choice[j] {
        assert other[choice[i]] in other;
        OneStartPerPermittedFile(w, pair, other[choice[i]], i, j);
      }
    }
    Pigeonhole(choice, |other|);
  }
}
