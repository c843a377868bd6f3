/** Archive text to typed rows (awsnative/backfill/epoch.py and parsers.py). */
module ArchiveRows {
  import opened Prelude
  import opened PyText
  import Calendar

  // Timestamp units.

  datatype Unit = Millis | Micros

  const EPOCH_FLOOR_S := 1_420_070_400
  const EPOCH_CEIL_S := 2_208_988_800
  const MICROS_PER_MILLI := 1_000

  predicate InRange(value: int, perSecond: int) { EPOCH_FLOOR_S * perSecond <= value < EPOCH_CEIL_S * perSecond }

  /** What can be wrong with an archive file. */
  datatype DataError = BadChecksum | BadZip | NotOneMember | BadText | WrongColumns | NotAnInteger
                     | NotAnInstant | UnitsDisagree | NotABoolean

  /** unit_of; None where it raises. */
  function UnitOf(value: int): Option<Unit>
  {
    if InRange(value, 1_000) then Some(Millis) else if InRange(value, 1_000_000) then Some(Micros) else None
  }

  function ToMicros(value: int, unit: Unit): int { if unit.Millis? then value * MICROS_PER_MILLI else value }

  /** Seconds from the start of day `epoch` to the start of day `day`. */
  function SecondsBetween(epoch: int, day: int): int { (day - epoch) * 86_400 }

  /** A value has a unit exactly when, in milliseconds or in microseconds, it is an instant from the start of 2015
      to the end of 2039. */
  lemma PlausibleExactlyWhen(value: int)
    ensures var epoch := Calendar.Ordinal(Calendar.Date(1970, 1, 1));
            var from := SecondsBetween(epoch, Calendar.Ordinal(Calendar.Date(2015, 1, 1)));
            var to := SecondsBetween(epoch, Calendar.Ordinal(Calendar.Date(2040, 1, 1)));
            && (UnitOf(value) == Some(Millis) <==> from * 1_000 <= value < to * 1_000)
            && (UnitOf(value) == Some(Micros) <==> from * 1_000_000 <= value < to * 1_000_000)
  {
    Calendar.CalendarIsAnchored();
  }

  /** Detection recovers the instant: written in microseconds, or in milliseconds when it is a whole number of
      them, a plausible instant is read back as itself; in seconds or nanoseconds it is refused. */
  lemma DetectionRecovers(instant: int)
    requires InRange(instant, 1_000_000)
    ensures UnitOf(instant) == Some(Micros) && ToMicros(instant, Micros) == instant
    ensures instant % 1_000 == 0 ==> UnitOf(instant / 1_000) == Some(Millis) && ToMicros(instant / 1_000, Millis) == instant
    ensures UnitOf(instant / 1_000_000) == None && UnitOf(instant * 1_000) == None
  {
  }

  /** Scaling a plausible instant lands in the microsecond range and keeps the order of instants. */
  lemma ScalingIsExact(a: int, b: int, unit: Unit)
    requires UnitOf(a) == Some(unit) && UnitOf(b) == Some(unit)
    ensures InRange(ToMicros(a, unit), 1_000_000)
    ensures a < b <==> ToMicros(a, unit) < ToMicros(b, unit)
    ensures a == b <==> ToMicros(a, unit) == ToMicros(b, unit)
  {
  }

  type Held = Option<Unit>

  function Normalised(held: Held, value: int): Result<int, DataError>
  {
    var observed := UnitOf(value);
    if observed.None? then Err(NotAnInstant)
    else if held.Some? && held != observed then Err(UnitsDisagree)
    else Ok(ToMicros(value, observed.value))
  }

  function HeldAfter(held: Held, value: int): Held { if held.None? then UnitOf(value) else held }

  class UnitNormaliser {
    var unit: Held

    constructor ()
      ensures unit == None
    {
      unit := None;
    }

    /** The unit of the first value holds for every later one; a refused value leaves it as it was. */
    method Call(value: int) returns (micros: Result<int, DataError>)
      modifies this
      ensures micros == Normalised(old(unit), value)
      ensures unit == HeldAfter(old(unit), value)
    {
      var observed := UnitOf(value);
      if observed.None? {
        return Err(NotAnInstant);
      }
      if unit.None? {
        unit := observed;
      } else if observed != unit {
        return Err(UnitsDisagree);
      }
      micros := Ok(ToMicros(value, observed.value));
    }
  }

  // Lines to fields.

  const AGG_TRADE_COLUMNS := 8
  const KLINE_COLUMNS := 12

  /** _fields: None for a blank line. */
  function Fields(line: string, expected: int): Result<Option<seq<string>>, DataError>
  {
    var stripped := Strip(line);
    if stripped == [] then Ok(None)
    else
      var fields := SplitOn(stripped, ',');
      if |fields| != expected then Err(WrongColumns) else Ok(Some(fields))
  }

  predicate Blank(line: string) { AllSpace(line) }

  function NonBlank(lines: seq<string>): seq<string>
  {
    if lines == [] then [] else if Blank(lines[0]) then NonBlank(lines[1..]) else [lines[0]] + NonBlank(lines[1..])
  }

  /** A line's columns as the archive writes them. */
  function Columns(line: string): seq<string> { SplitOn(Strip(line), ',') }

  datatype Side = Buy | Sell

  /** _side_from_buyer_maker: the buyer being the maker means the seller was the aggressor. */
  function SideFromBuyerMaker(text: string): Result<Side, DataError>
  {
    if text == "True" then Ok(Sell) else if text == "False" then Ok(Buy) else Err(NotABoolean)
  }

  datatype AggTrade = AggTrade(aggTradeId: int, price: string, quantity: string, firstTradeId: int,
                               lastTradeId: int, eventTsUs: int, side: Side)

  datatype Kline = Kline(openTimeUs: int, closeTimeUs: int, open: string, high: string, low: string, close: string,
                         volume: string, quoteVolume: string, tradeCount: int,
                         takerBuyBaseVolume: string, takerBuyQuoteVolume: string)

  /** int(text). */
  function IntOf(text: string): Result<int, DataError>
  {
    var value := ParseInt(text);
    if value.None? then Err(NotAnInteger) else Ok(value.value)
  }

  // What a row has to do with its line, given the file's unit. This is the layout the archive promises.

  /** `text` is a plausible instant in `unit`, and `micros` is the same instant. */
  predicate IsInstant(text: string, unit: Unit, micros: int)
  {
    var value := ParseInt(text);
    value.Some? && UnitOf(value.value) == Some(unit) && micros == ToMicros(value.value, unit)
  }

  predicate TradeOfLine(line: string, unit: Unit, row: AggTrade)
  {
    var c := Columns(line);
    && |c| == AGG_TRADE_COLUMNS
    && ParseInt(c[0]) == Some(row.aggTradeId)
    && row.price == c[1] && row.quantity == c[2]
    && ParseInt(c[3]) == Some(row.firstTradeId)
    && ParseInt(c[4]) == Some(row.lastTradeId)
    && IsInstant(c[5], unit, row.eventTsUs)
    && c[6] == (if row.side.Sell? then "True" else "False")
  }

  predicate KlineOfLine(line: string, unit: Unit, row: Kline)
  {
    var c := Columns(line);
    && |c| == KLINE_COLUMNS
    && IsInstant(c[0], unit, row.openTimeUs)
    && [row.open, row.high, row.low, row.close, row.volume] == c[1..6]
    && IsInstant(c[6], unit, row.closeTimeUs)
    && row.quoteVolume == c[7]
    && ParseInt(c[8]) == Some(row.tradeCount)
    && row.takerBuyBaseVolume == c[9] && row.takerBuyQuoteVolume == c[10]
  }

  // The parsers, line by line.

  /** A row and the unit held after it; None for a line that is skipped. */
  type LineResult<T> = Result<Option<(Held, T)>, DataError>

  function TradeRow(held: Held, line: string): LineResult<AggTrade>
  {
    var fields := Fields(line, AGG_TRADE_COLUMNS);
    if fields.Err? then Err(fields.error) else if fields.value.None? then Ok(None) else
    var c := fields.value.value;
    var id := IntOf(c[0]);
    if id.Err? then Err(id.error) else
    var first := IntOf(c[3]);
    if first.Err? then Err(first.error) else
    var last := IntOf(c[4]);
    if last.Err? then Err(last.error) else
    var at := IntOf(c[5]);
    if at.Err? then Err(at.error) else
    var micros := Normalised(held, at.value);
    if micros.Err? then Err(micros.error) else
    var side := SideFromBuyerMaker(c[6]);
    if side.Err? then Err(side.error) else
    Ok(Some((HeldAfter(held, at.value),
             AggTrade(id.value, c[1], c[2], first.value, last.value, micros.value, side.value))))
  }

  function KlineRow(held: Held, line: string): LineResult<Kline>
  {
    var fields := Fields(line, KLINE_COLUMNS);
    if fields.Err? then Err(fields.error) else if fields.value.None? then Ok(None) else
    var c := fields.value.value;
    var open := IntOf(c[0]);
    if open.Err? then Err(open.error) else
    var openUs := Normalised(held, open.value);
    if openUs.Err? then Err(openUs.error) else
    var close := IntOf(c[6]);
    if close.Err? then Err(close.error) else
    var between := HeldAfter(held, open.value);
    var closeUs := Normalised(between, close.value);
    if closeUs.Err? then Err(closeUs.error) else
    var count := IntOf(c[8]);
    if count.Err? then Err(count.error) else
    Ok(Some((HeldAfter(between, close.value),
             Kline(openUs.value, closeUs.value, c[1], c[2], c[3], c[4], c[5], c[7], count.value, c[9], c[10]))))
  }

  /** Reads lines in order, one unit for the file; the first bad line refuses the file. */
  function ReadFrom<T>(read: (Held, string) -> LineResult<T>, held: Held, lines: seq<string>): Result<seq<T>, DataError>
    decreases |lines|
  {
    if lines == [] then Ok([]) else
    var row := read(held, lines[0]);
    if row.Err? then Err(row.error)
    else if row.value.None? then ReadFrom(read, held, lines[1..])
    else Prepend([row.value.value.1], ReadFrom(read, row.value.value.0, lines[1..]))
  }

  function TradesOf(lines: seq<string>): Result<seq<AggTrade>, DataError> { ReadFrom(TradeRow, None, lines) }

  function KlinesOf(lines: seq<string>): Result<seq<Kline>, DataError> { ReadFrom(KlineRow, None, lines) }

  function Prepend<T>(rows: seq<T>, rest: Result<seq<T>, DataError>): Result<seq<T>, DataError>
  {
    if rest.Ok? then Ok(rows + rest.value) else rest
  }

  /** One turn of a parser's loop over the lines from `i` on. */
  lemma ReadOne<T>(read: (Held, string) -> LineResult<T>, held: Held, lines: seq<string>, i: nat, rows: seq<T>)
    requires i < |lines|
    ensures var row := read(held, lines[i]);
            Prepend(rows, ReadFrom(read, held, lines[i..])) ==
            if row.Err? then Err(row.error)
            else if row.value.None? then Prepend(rows, ReadFrom(read, held, lines[i + 1..]))
            else Prepend(rows + [row.value.value.1], ReadFrom(read, row.value.value.0, lines[i + 1..]))
  {
    assert lines[i..][1..] == lines[i + 1..];
    var row := read(held, lines[i]);
    if row.Ok? && row.value.Some? {
      PrependTwice(rows, [row.value.value.1], ReadFrom(read, row.value.value.0, lines[i + 1..]));
    }
  }

  lemma PrependNothing<T>(rest: Result<seq<T>, DataError>)
    ensures Prepend([], rest) == rest
  {
    if rest.Ok? {
      assert [] + rest.value == rest.value;
    }
  }

  lemma PrependTwice<T>(a: seq<T>, b: seq<T>, rest: Result<seq<T>, DataError>)
    ensures Prepend(a, Prepend(b, rest)) == Prepend(a + b, rest)
  {
    if rest.Ok? {
      assert a + (b + rest.value) == a + b + rest.value;
    }
  }

  /** list(parse_agg_trades(lines)). */
  method ParseAggTrades(lines: seq<string>) returns (result: Result<seq<AggTrade>, DataError>)
    ensures result == TradesOf(lines)
  {
    var normalise := new UnitNormaliser();
    var rows: seq<AggTrade> := [];
    PrependNothing(TradesOf(lines));
    assert lines[0..] == lines;
    for i := 0 to |lines|
      invariant TradesOf(lines) == Prepend(rows, ReadFrom(TradeRow, normalise.unit, lines[i..]))
    {
      ReadOne(TradeRow, normalise.unit, lines, i, rows);
      var fields := Fields(lines[i], AGG_TRADE_COLUMNS);
      if fields.Err? {
        return Err(fields.error);
      }
      if fields.value.None? {
        continue;
      }
      var row := TradeFromFields(normalise, lines[i], fields.value.value);
      if row.Err? {
        return Err(row.error);
      }
      rows := rows + [row.value];
    }
    assert rows + [] == rows;
    result := Ok(rows);
  }

  /** The row expression of parse_agg_trades. */
  method TradeFromFields(normalise: UnitNormaliser, ghost line: string, c: seq<string>) returns (row: Result<AggTrade, DataError>)
    requires Fields(line, AGG_TRADE_COLUMNS) == Ok(Some(c))
    modifies normalise
    ensures var read := TradeRow(old(normalise.unit), line);
            if read.Err? then row == Err(read.error) else row.Ok? && read.value == Some((normalise.unit, row.value))
  {
    var id := IntOf(c[0]);
    if id.Err? {
      return Err(id.error);
    }
    var first := IntOf(c[3]);
    if first.Err? {
      return Err(first.error);
    }
    var last := IntOf(c[4]);
    if last.Err? {
      return Err(last.error);
    }
    var at := IntOf(c[5]);
    if at.Err? {
      return Err(at.error);
    }
    var micros := normalise.Call(at.value);
    if micros.Err? {
      return Err(micros.error);
    }
    var side := SideFromBuyerMaker(c[6]);
    if side.Err? {
      return Err(side.error);
    }
    row := Ok(AggTrade(id.value, c[1], c[2], first.value, last.value, micros.value, side.value));
  }

  /** list(parse_klines(lines)). */
  method ParseKlines(lines: seq<string>) returns (result: Result<seq<Kline>, DataError>)
    ensures result == KlinesOf(lines)
  {
    var normalise := new UnitNormaliser();
    var rows: seq<Kline> := [];
    PrependNothing(KlinesOf(lines));
    assert lines[0..] == lines;
    for i := 0 to |lines|
      invariant KlinesOf(lines) == Prepend(rows, ReadFrom(KlineRow, normalise.unit, lines[i..]))
    {
      ReadOne(KlineRow, normalise.unit, lines, i, rows);
      var fields := Fields(lines[i], KLINE_COLUMNS);
      if fields.Err? {
        return Err(fields.error);
      }
      if fields.value.None? {
        continue;
      }
      var row := KlineFromFields(normalise, lines[i], fields.value.value);
      if row.Err? {
        return Err(row.error);
      }
      rows := rows + [row.value];
    }
    assert rows + [] == rows;
    result := Ok(rows);
  }

  /** The row expression of parse_klines: both times go through the one normaliser. */
  method KlineFromFields(normalise: UnitNormaliser, ghost line: string, c: seq<string>) returns (row: Result<Kline, DataError>)
    requires Fields(line, KLINE_COLUMNS) == Ok(Some(c))
    modifies normalise
    ensures var read := KlineRow(old(normalise.unit), line);
            if read.Err? then row == Err(read.error) else row.Ok? && read.value == Some((normalise.unit, row.value))
  {
    var open := IntOf(c[0]);
    if open.Err? {
      return Err(open.error);
    }
    var openUs := normalise.Call(open.value);
    if openUs.Err? {
      return Err(openUs.error);
    }
    var close := IntOf(c[6]);
    if close.Err? {
      return Err(close.error);
    }
    var closeUs := normalise.Call(close.value);
    if closeUs.Err? {
      return Err(closeUs.error);
    }
    var count := IntOf(c[8]);
    if count.Err? {
      return Err(count.error);
    }
    row := Ok(Kline(openUs.value, closeUs.value, c[1], c[2], c[3], c[4], c[5], c[7], count.value, c[9], c[10]));
  }

  // Accepted files are exactly the well-formed ones in a single unit.

  predicate Agrees(held: Held, unit: Unit) { held.None? || held == Some(unit) }

  /** A line is skipped exactly when it is blank. */
  lemma SkippedWhenBlank(line: string, expected: int)
    ensures Fields(line, expected) == Ok(None) <==> Blank(line)
    ensures !Blank(line) ==>
              Fields(line, expected) == if |Columns(line)| == expected then Ok(Some(Columns(line))) else Err(WrongColumns)
  {
    StripIsEmptyForBlank(line);
  }

  /** `rows` are the lines' rows, one for one, all in `unit`. */
  ghost predicate RowsOf<T>(ofLine: (string, Unit, T) -> bool, lines: seq<string>, unit: Unit, rows: seq<T>)
  {
    |rows| == |lines| && forall i :: 0 <= i < |lines| ==> ofLine(lines[i], unit, rows[i])
  }

  /** Reading one line skips it exactly when it is blank, and otherwise yields a row exactly when the line has
      that row in a unit the file may still be in. */
  ghost predicate ReadsLine<T(!new)>(read: (Held, string) -> LineResult<T>, ofLine: (string, Unit, T) -> bool, line: string)
  {
    forall held :: ReadsIn(read, ofLine, line, held)
  }

  ghost predicate ReadsIn<T(!new)>(read: (Held, string) -> LineResult<T>, ofLine: (string, Unit, T) -> bool, line: string, held: Held)
  {
    var row := read(held, line);
    && (row == Ok(None) <==> Blank(line))
    && (row.Ok? && row.value.Some? ==>
          var unit := row.value.value.0;
          unit.Some? && Agrees(held, unit.value) && ofLine(line, unit.value, row.value.value.1))
    && (forall unit, value :: !Blank(line) && Agrees(held, unit) && ofLine(line, unit, value) ==> row == Ok(Some((Some(unit), value))))
  }

  lemma TradeRowReadsLine(line: string, held: Held)
    ensures ReadsIn(TradeRow, TradeOfLine, line, held)
  {
    SkippedWhenBlank(line, AGG_TRADE_COLUMNS);
  }

  lemma KlineRowReadsLine(line: string, held: Held)
    ensures ReadsIn(KlineRow, KlineOfLine, line, held)
  {
    SkippedWhenBlank(line, KLINE_COLUMNS);
    var c := Columns(line);
    if |c| == KLINE_COLUMNS {
      assert c[1..6] == [c[1], c[2], c[3], c[4], c[5]];
    }
  }

  lemma {:induction false} AcceptedRows<T(!new)>(read: (Held, string) -> LineResult<T>, ofLine: (string, Unit, T) -> bool,
                                           held: Held, lines: seq<string>) returns (unit: Unit)
    requires ReadFrom(read, held, lines).Ok? && forall line <- lines :: ReadsLine(read, ofLine, line)
    ensures Agrees(held, unit) && RowsOf(ofLine, NonBlank(lines), unit, ReadFrom(read, held, lines).value)
    decreases |lines|
  {
    if lines == [] {
      unit := if held.Some? then held.value else Micros;
    } else {
      assert ReadsLine(read, ofLine, lines[0]) && ReadsIn(read, ofLine, lines[0], held);
      var row := read(held, lines[0]).value;
      unit := AcceptedRows(read, ofLine, if row.None? then held else row.value.0, lines[1..]);
    }
  }

  lemma {:induction false} WellFormedIsAccepted<T(!new)>(read: (Held, string) -> LineResult<T>, ofLine: (string, Unit, T) -> bool,
                                                   held: Held, lines: seq<string>, unit: Unit, rows: seq<T>)
    requires forall line <- lines :: ReadsLine(read, ofLine, line)
    requires Agrees(held, unit) && RowsOf(ofLine, NonBlank(lines), unit, rows)
    ensures ReadFrom(read, held, lines) == Ok(rows)
    decreases |lines|
  {
    if lines != [] {
      assert ReadsLine(read, ofLine, lines[0]) && ReadsIn(read, ofLine, lines[0], held);
      if Blank(lines[0]) {
        WellFormedIsAccepted(read, ofLine, held, lines[1..], unit, rows);
      } else {
        assert ofLine(NonBlank(lines)[0], unit, rows[0]);
        forall i | 0 <= i < |NonBlank(lines[1..])| ensures ofLine(NonBlank(lines[1..])[i], unit, rows[1..][i]) {
          assert NonBlank(lines)[i + 1] == NonBlank(lines[1..])[i];
        }
        WellFormedIsAccepted(read, ofLine, Some(unit), lines[1..], unit, rows[1..]);
        assert [rows[0]] + rows[1..] == rows;
      }
    }
  }

  ghost predicate TradesIn(lines: seq<string>, unit: Unit, rows: seq<AggTrade>) { RowsOf(TradeOfLine, NonBlank(lines), unit, rows) }

  ghost predicate KlinesIn(lines: seq<string>, unit: Unit, rows: seq<Kline>) { RowsOf(KlineOfLine, NonBlank(lines), unit, rows) }

  /** An aggTrades file is accepted with these rows exactly when there is one row per nonblank line, each
      row reading its line's columns, all in one timestamp unit. */
  lemma TradesAreReadExactly(lines: seq<string>, rows: seq<AggTrade>)
    ensures TradesOf(lines) == Ok(rows) <==> exists unit :: TradesIn(lines, unit, rows)
  {
    forall line <- lines ensures ReadsLine(TradeRow, TradeOfLine, line) {
      forall held ensures ReadsIn(TradeRow, TradeOfLine, line, held) { TradeRowReadsLine(line, held); }
    }
    if TradesOf(lines) == Ok(rows) {
      var unit := AcceptedRows(TradeRow, TradeOfLine, None, lines);
      assert TradesIn(lines, unit, rows);
    }
    forall unit | TradesIn(lines, unit, rows) ensures TradesOf(lines) == Ok(rows) {
      WellFormedIsAccepted(TradeRow, TradeOfLine, None, lines, unit, rows);
    }
  }

  /** The same for a klines file; both time columns are held to the one unit. */
  lemma KlinesAreReadExactly(lines: seq<string>, rows: seq<Kline>)
    ensures KlinesOf(lines) == Ok(rows) <==> exists unit :: KlinesIn(lines, unit, rows)
  {
    forall line <- lines ensures ReadsLine(KlineRow, KlineOfLine, line) {
      forall held ensures ReadsIn(KlineRow, KlineOfLine, line, held) { KlineRowReadsLine(line, held); }
    }
    if KlinesOf(lines) == Ok(rows) {
      var unit := AcceptedRows(KlineRow, KlineOfLine, None, lines);
      assert KlinesIn(lines, unit, rows);
    }
    forall unit | KlinesIn(lines, unit, rows) ensures KlinesOf(lines) == Ok(rows) {
      WellFormedIsAccepted(KlineRow, KlineOfLine, None, lines, unit, rows);
    }
  }

  /** The two time columns of a klines line, and what the row holds for each. */
  datatype TimeColumn = Opening | Closing

  function TimeText(line: string, column: TimeColumn): string
    requires |Columns(line)| == KLINE_COLUMNS
  {
    Columns(line)[if column.Opening? then 0 else 6]
  }

  function TimeUs(row: Kline, column: TimeColumn): int { if column.Opening? then row.openTimeUs else row.closeTimeUs }

  /** Two texts are plausible instants of one unit, and the microseconds given for them compare as they do. */
  predicate SameClock(a: string, b: string, aUs: int, bUs: int)
  {
    var x, y := ParseInt(a), ParseInt(b);
    && x.Some? && y.Some? && UnitOf(x.value).Some? && UnitOf(x.value) == UnitOf(y.value)
    && InRange(aUs, 1_000_000) && InRange(bUs, 1_000_000)
    && (x.value < y.value <==> aUs < bUs) && (x.value == y.value <==> aUs == bUs)
  }

  lemma InstantsShareAClock(a: string, b: string, unit: Unit, aUs: int, bUs: int)
    requires IsInstant(a, unit, aUs) && IsInstant(b, unit, bUs)
    ensures SameClock(a, b, aUs, bUs)
  {
    ScalingIsExact(ParseInt(a).value, ParseInt(b).value, unit);
    ScalingIsExact(ParseInt(b).value, ParseInt(a).value, unit);
  }

  /** No accepted klines file mixes units: any two of its times, opening or closing, of one line or of two,
      are plausible instants of one unit and compare as the archive's own numbers do. */
  lemma AcceptedTimesAreComparable(lines: seq<string>, i: int, a: TimeColumn, j: int, b: TimeColumn)
    requires KlinesOf(lines).Ok? && 0 <= i < |NonBlank(lines)| && 0 <= j < |NonBlank(lines)|
    ensures var rows, raw := KlinesOf(lines).value, NonBlank(lines);
            && |rows| == |raw| && |Columns(raw[i])| == |Columns(raw[j])| == KLINE_COLUMNS
            && SameClock(TimeText(raw[i], a), TimeText(raw[j], b), TimeUs(rows[i], a), TimeUs(rows[j], b))
  {
    var rows, raw := KlinesOf(lines).value, NonBlank(lines);
    KlinesAreReadExactly(lines, rows);
    var unit :| KlinesIn(lines, unit, rows);
    assert KlineOfLine(raw[i], unit, rows[i]) && KlineOfLine(raw[j], unit, rows[j]);
    InstantsShareAClock(TimeText(raw[i], a), TimeText(raw[j], b), unit, TimeUs(rows[i], a), TimeUs(rows[j], b));
  }

  /** The same for the one time column of an aggTrades file. */
  lemma AcceptedTradeTimesAreComparable(lines: seq<string>, i: int, j: int)
    requires TradesOf(lines).Ok? && 0 <= i < |NonBlank(lines)| && 0 <= j < |NonBlank(lines)|
    ensures var rows, raw := TradesOf(lines).value, NonBlank(lines);
            && |rows| == |raw| && |Columns(raw[i])| == |Columns(raw[j])| == AGG_TRADE_COLUMNS
            && SameClock(Columns(raw[i])[5], Columns(raw[j])[5], rows[i].eventTsUs, rows[j].eventTsUs)
  {
    var rows, raw := TradesOf(lines).value, NonBlank(lines);
    TradesAreReadExactly(lines, rows);
    var unit :| TradesIn(lines, unit, rows);
    assert TradeOfLine(raw[i], unit, rows[i]) && TradeOfLine(raw[j], unit, rows[j]);
    InstantsShareAClock(Columns(raw[i])[5], Columns(raw[j])[5], unit, rows[i].eventTsUs, rows[j].eventTsUs);
  }
}
