/** The texts a backfill goes by, read back: dates, archive paths and staging paths
    (awsnative/backfill/tiers.py, manifest.py). */
module ManifestTexts {
  import opened Prelude
  import opened Calendar
  import opened PyText
  import opened ArchivePlan
  import opened Manifest
  import Loader

  // Dates.

  lemma TwoDigitsParse(n: int)
    requires 0 <= n < 100
    ensures ParseDigits(TwoDigits(n)) == Some(n)
  {
    DigitRoundTrip(n / 10);
    DigitRoundTrip(n % 10);
    DigitAppended([Digit(n / 10)], Digit(n % 10));
  }

  lemma FourDigitsParse(n: int)
    requires 0 <= n < 10000
    ensures ParseDigits(FourDigits(n)) == Some(n)
  {
    var high, low := n / 100, n % 100;
    TwoDigitsParse(high);
    DigitRoundTrip(high % 10);
    DigitRoundTrip(low / 10);
    DigitRoundTrip(low % 10);
    var three := TwoDigits(high) + [Digit(low / 10)];
    DigitAppended(TwoDigits(high), Digit(low / 10));
    DigitAppended(three, Digit(low % 10));
    assert FourDigits(n) == three + [Digit(low % 10)];
  }

  predicate AllDigits(text: string) { forall c <- text :: '0' <= c <= '9' }

  lemma DigitIsADigit(n: int)
    requires 0 <= n < 10
    ensures '0' <= Digit(n) <= '9'
  {
    DigitRoundTrip(n);
  }

  lemma PartsAreDigits(d: Date)
    requires ValidDate(d)
    ensures AllDigits(FourDigits(d.year)) && AllDigits(TwoDigits(d.month)) && AllDigits(TwoDigits(d.day))
  {
    DigitIsADigit(d.year / 100 / 10);
    DigitIsADigit(d.year / 100 % 10);
    DigitIsADigit(d.year % 100 / 10);
    DigitIsADigit(d.year % 100 % 10);
    DigitIsADigit(d.month / 10);
    DigitIsADigit(d.month % 10);
    DigitIsADigit(d.day / 10);
    DigitIsADigit(d.day % 10);
  }

  lemma DigitsParseAsInt(text: string)
    requires text != [] && AllDigits(text)
    ensures ParseInt(text) == ParseDigits(text) && '-' !in text && '/' !in text
  {
    assert text[0] in text;
    forall c | c in text ensures Plain(c) { }
    PlainTextIsTrimmed(text);
  }

  /** `text` is the parts, separated by dashes, and each part reads as its number. */
  predicate Reads(text: string, numbers: seq<int>)
  {
    var parts := SplitOn(text, '-');
    |parts| == |numbers| && forall i :: 0 <= i < |numbers| ==> ParseInt(parts[i]) == Some(numbers[i])
  }

  lemma PartsParse(d: Date)
    requires ValidDate(d)
    ensures ParseInt(FourDigits(d.year)) == Some(d.year) && ParseInt(TwoDigits(d.month)) == Some(d.month)
    ensures ParseInt(TwoDigits(d.day)) == Some(d.day)
    ensures forall part <- [FourDigits(d.year), TwoDigits(d.month), TwoDigits(d.day)] :: '-' !in part && '/' !in part
  {
    PartsAreDigits(d);
    FourDigitsParse(d.year);
    TwoDigitsParse(d.month);
    TwoDigitsParse(d.day);
    DigitsParseAsInt(FourDigits(d.year));
    DigitsParseAsInt(TwoDigits(d.month));
    DigitsParseAsInt(TwoDigits(d.day));
  }

  /** A period is the date it stands for: read back at its dashes it gives the year and month, and for a daily
      file the day. */
  lemma PeriodReadsBack(g: Granularity, d: Date)
    requires ValidDate(d)
    ensures Reads(PeriodText(g, d), if g.Monthly? then [d.year, d.month] else [d.year, d.month, d.day])
    ensures '/' !in PeriodText(g, d)
  {
    var year, month, day := FourDigits(d.year), TwoDigits(d.month), TwoDigits(d.day);
    PartsParse(d);
    if g.Daily? {
      DailyText(year, month, day);
      ReadsParts(PeriodText(g, d), [year, month, day], [d.year, d.month, d.day]);
    } else {
      Dashed2(year, month);
      ReadsParts(PeriodText(g, d), [year, month], [d.year, d.month]);
    }
  }

  lemma ReadsParts(text: string, parts: seq<string>, numbers: seq<int>)
    requires SplitOn(text, '-') == parts && |parts| == |numbers|
    requires forall i :: 0 <= i < |parts| ==> ParseInt(parts[i]) == Some(numbers[i])
    ensures Reads(text, numbers)
  {
  }

  lemma DailyText(year: string, month: string, day: string)
    requires forall part <- [year, month, day] :: '-' !in part && '/' !in part
    ensures SplitOn(year + "-" + month + "-" + day, '-') == [year, month, day]
    ensures '/' !in year + "-" + month + "-" + day
  {
    assert year in [year, month, day] && month in [year, month, day] && day in [year, month, day];
    Dashed3(year, month, day);
    assert year + "-" + month + "-" + day == year + "-" + (month + "-" + day);
  }

  lemma Dashed2(year: string, month: string)
    requires '-' !in year && '-' !in month
    ensures SplitOn(year + "-" + month, '-') == [year, month]
  {
    SplitOfLast(month, '-');
    SplitOfPlain(year, month, '-');
  }

  lemma Dashed3(year: string, month: string, day: string)
    requires '-' !in year && '-' !in month && '-' !in day
    ensures SplitOn(year + "-" + (month + "-" + day), '-') == [year, month, day]
  {
    Dashed2(month, day);
    SplitOfPlain(year, month + "-" + day, '-');
  }

  // Paths.

  /** The last part of an archive path. */
  function NameOf(f: ArchiveFile): string
  {
    f.venueSymbol + "-" + (if f.tier.Deep? then "1m" else "aggTrades") + "-" + f.period + ".zip"
  }

  /** The archive's own layout: klines have an interval in their path, aggTrades do not. */
  function PathOf(f: ArchiveFile): seq<string>
  {
    ["data", "spot", if f.granularity.Monthly? then "monthly" else "daily"]
    + if f.tier.Deep? then ["klines", f.venueSymbol, "1m", NameOf(f)] else ["aggTrades", f.venueSymbol, NameOf(f)]
  }

  lemma FilenameIsName(f: ArchiveFile)
    ensures Filename(f) == NameOf(f)
  {
    Nested(f.venueSymbol, "-" + NameInfix(f.tier) + "-", f.period, ".zip");
    Nested(f.venueSymbol, "-", NameInfix(f.tier), "-");
    assert Filename(f) == f.venueSymbol + ("-" + NameInfix(f.tier) + "-" + (f.period + ".zip"));
  }

  lemma Nested(a: string, b: string, c: string, d: string)
    ensures a + (b + (c + d)) == a + b + c + d
    ensures a + (b + c + d) == a + b + c + d
  {
  }

  predicate Slashless(text: string) { '/' !in text }

  lemma JoinCons(part: string, rest: seq<string>)
    requires rest != []
    ensures Join([part] + rest, '/') == part + ("/" + Join(rest, '/'))
  {
    assert ([part] + rest)[1..] == rest;
    assert part + ['/'] + Join(rest, '/') == part + ("/" + Join(rest, '/'));
  }

  /** A path of six parts or more, written out. */
  lemma PathText(a: string, b: string, c: string, d: string, e: string, rest: seq<string>)
    requires rest != []
    ensures Join([a, b, c, d, e] + rest, '/')
            == a + ("/" + (b + ("/" + (c + ("/" + (d + ("/" + (e + ("/" + Join(rest, '/'))))))))))
  {
    JoinCons(e, rest);
    JoinCons(d, [e] + rest);
    JoinCons(c, [d] + ([e] + rest));
    JoinCons(b, [c] + ([d] + ([e] + rest)));
    JoinCons(a, [b] + ([c] + ([d] + ([e] + rest))));
    assert [a, b, c, d, e] + rest == [a] + ([b] + ([c] + ([d] + ([e] + rest))));
  }

  /** The file's own part of its path. */
  function Tail(f: ArchiveFile): seq<string> { if f.tier.Deep? then ["1m", NameOf(f)] else [NameOf(f)] }

  lemma PathParts(f: ArchiveFile)
    ensures PathOf(f) == ["data", "spot", GranularityText(f.granularity), Dataset(f.tier), f.venueSymbol] + Tail(f)
  {
  }

  lemma TailText(f: ArchiveFile)
    ensures "/" + IntervalSegment(f.tier) + Filename(f) == "/" + Join(Tail(f), '/')
  {
    FilenameIsName(f);
    var interval: string, name := "1m", NameOf(f);
    assert [interval, name][1..] == [name];
    assert "/" + (interval + "/") + name == "/" + (interval + ['/'] + name);
    assert "/" + "" + name == "/" + name;
  }

  lemma Root(rest: string)
    ensures "data" + ("/" + ("spot" + ("/" + rest))) == "data/spot/" + rest
  {
    var a: string, b: string := "data", "spot";
    Nested(a, "/", b, "/" + rest);
    Nested(a + "/" + b, "/", rest, []);
    assert a + "/" + b + "/" == "data/spot/";
    assert a + "/" + b + ("/" + rest) == (a + "/" + b + "/") + rest;
  }

  lemma KeyIsJoinedPath(f: ArchiveFile)
    ensures KeyOf(f) == Join(PathOf(f), '/')
  {
    PathParts(f);
    TailText(f);
    PathText("data", "spot", GranularityText(f.granularity), Dataset(f.tier), f.venueSymbol, Tail(f));
    Root(GranularityText(f.granularity) + ("/" + (Dataset(f.tier) + ("/" + (f.venueSymbol + ("/" + Join(Tail(f), '/')))))));
  }

  lemma WordsAreSlashless()
    ensures Slashless("data") && Slashless("spot") && Slashless("monthly") && Slashless("daily")
    ensures Slashless("klines") && Slashless("aggTrades") && Slashless("1m") && Slashless("-") && Slashless(".zip")
  {
  }

  lemma NameIsSlashless(f: ArchiveFile)
    requires Named(f) && Slashless(f.venueSymbol)
    ensures Slashless(NameOf(f))
  {
    PeriodReadsBack(f.granularity, f.dt);
    WordsAreSlashless();
    Together(f.venueSymbol, "-");
    Together(f.venueSymbol + "-", NameInfix(f.tier));
    Together(f.venueSymbol + "-" + NameInfix(f.tier), "-");
    Together(f.venueSymbol + "-" + NameInfix(f.tier) + "-", f.period);
    Together(f.venueSymbol + "-" + NameInfix(f.tier) + "-" + f.period, ".zip");
  }

  lemma Together(a: string, b: string)
    ensures Slashless(a + b) <==> Slashless(a) && Slashless(b)
  {
    forall c | c in a + b ensures c in a || c in b { }
    assert forall i :: 0 <= i < |a| ==> (a + b)[i] == a[i];
    assert forall i :: 0 <= i < |b| ==> (a + b)[|a| + i] == b[i];
  }

  lemma PathIsSlashless(f: ArchiveFile)
    requires Named(f) && Slashless(f.venueSymbol)
    ensures forall part <- PathOf(f) :: Slashless(part)
  {
    NameIsSlashless(f);
    WordsAreSlashless();
    PathParts(f);
    assert forall part <- Tail(f) :: Slashless(part);
  }

  /** Cutting a joined path gives the path. */
  lemma CutPath(path: seq<string>)
    requires path != [] && forall part <- path :: Slashless(part)
    ensures SplitOn(Join(path, '/'), '/') == path
  {
    SplitUndoesJoin(path, '/');
  }

  /** An archive key is a path of the archive: cut at its slashes it gives the granularity, the tier's dataset,
      the symbol, the interval for klines, and the file name with its period. */
  lemma KeyReadsBack(f: ArchiveFile)
    requires Named(f) && '/' !in f.venueSymbol
    ensures SplitOn(KeyOf(f), '/') == PathOf(f)
  {
    KeyIsJoinedPath(f);
    PathIsSlashless(f);
    CutPath(PathOf(f));
  }

  /** The name the loader looks for in the checksum file is the planned file's name. */
  lemma LoaderExpectsThePlannedName(f: ArchiveFile)
    requires Named(f) && '/' !in f.venueSymbol
    ensures Loader.ItemFilename(ItemFor(f)) == NameOf(f)
  {
    KeyReadsBack(f);
  }

  lemma Address(rest: string)
    ensures "https:" + ("/" + ("" + ("/" + ("data.binance.vision" + ("/" + rest))))) == Loader.ARCHIVE_BASE_URL + "/" + rest
  {
    var scheme: string, host: string := "https:", "data.binance.vision";
    Nested(scheme, "/", "/", host + ("/" + rest));
    Nested(scheme + "/" + "/", host, "/", rest);
    assert scheme + "/" + "/" + host == Loader.ARCHIVE_BASE_URL;
    assert "" + ("/" + (host + ("/" + rest))) == "/" + (host + ("/" + rest));
  }

  /** The object the loader fetches is the planned path at the archive's address, and the checksum file lies next
      to it. */
  lemma LoaderFetchesThePlannedPath(f: ArchiveFile)
    requires Named(f) && '/' !in f.venueSymbol
    ensures SplitOn(Loader.Url(ItemFor(f)), '/') == ["https:", "", "data.binance.vision"] + PathOf(f)
    ensures Loader.ChecksumUrl(ItemFor(f)) == Loader.Url(ItemFor(f)) + ".CHECKSUM"
  {
    KeyIsJoinedPath(f);
    PathIsSlashless(f);
    var path := PathOf(f);
    JoinCons("data.binance.vision", path);
    JoinCons("", ["data.binance.vision"] + path);
    JoinCons("https:", [""] + (["data.binance.vision"] + path));
    Address(KeyOf(f));
    var whole := ["https:"] + ([""] + (["data.binance.vision"] + path));
    AddressIsSlashless();
    CutPath(whole);
    assert whole == ["https:", "", "data.binance.vision"] + path;
  }

  lemma AddressIsSlashless()
    ensures Slashless("https:") && Slashless("") && Slashless("data.binance.vision")
  {
  }

  /** A staging key is where the tier's staging table looks: klines under one prefix and trades under the other,
      named after the instrument and the period. */
  lemma StagingKeyReadsBack(f: ArchiveFile)
    requires Named(f) && '/' !in f.instrumentId
    ensures SplitOn(ItemFor(f).stagingKey, '/')
            == [if f.tier.Deep? then "archive_staging_klines" else "archive_staging_trades",
                f.instrumentId + "-" + f.period + ".csv.gz"]
  {
    var name := f.instrumentId + "-" + f.period + ".csv.gz";
    Nested(f.instrumentId, "-", f.period, ".csv.gz");
    StagingNameIsSlashless(f, name);
    Nested(StagingPrefix(f.tier), "/", name, []);
    JoinCons(StagingPrefix(f.tier), [name]);
    CutPath([StagingPrefix(f.tier), name]);
    assert [StagingPrefix(f.tier)] + [name] == [StagingPrefix(f.tier), name];
    assert (f.instrumentId + ("-" + f.period)) + ".csv.gz" == name;
  }

  lemma StagingNameIsSlashless(f: ArchiveFile, name: string)
    requires Named(f) && Slashless(f.instrumentId) && name == f.instrumentId + "-" + f.period + ".csv.gz"
    ensures Slashless(name)
  {
    PeriodReadsBack(f.granularity, f.dt);
    FourSlashless(f.instrumentId, "-", f.period, ".csv.gz");
  }

  lemma FourSlashless(a: string, b: string, c: string, d: string)
    requires Slashless(a) && Slashless(b) && Slashless(c) && Slashless(d)
    ensures Slashless(a + b + c + d)
  {
    Together(a, b);
    Together(a + b, c);
    Together(a + b + c, d);
  }
}
