/** Rows to the text of a staging object (awsnative/backfill/staging.py); gzip is left aside. */
module Staging {
  import opened Prelude
  import opened PyText
  import opened ArchiveRows
  import opened Manifest

  function SideText(side: Side): string { if side.Buy? then "BUY" else "SELL" }

  /** One bar in the declared column order of the klines staging table. */
  function KlineFields(instrumentId: string, bar: Kline): (fields: seq<string>)
  {
    [instrumentId, IntText(bar.openTimeUs), IntText(bar.closeTimeUs), bar.open, bar.high, bar.low, bar.close,
     bar.volume, bar.quoteVolume, IntText(bar.tradeCount), bar.takerBuyBaseVolume]
  }

  /** One trade in the declared column order of the trades staging table. */
  function TradeFields(instrumentId: string, venueSymbol: string, trade: AggTrade): (fields: seq<string>)
  {
    [instrumentId, VENUE, venueSymbol, IntText(trade.aggTradeId), trade.price, trade.quantity,
     IntText(trade.firstTradeId), IntText(trade.lastTradeId), IntText(trade.eventTsUs), SideText(trade.side)]
  }

  type Table = seq<seq<string>>

  /** _join. */
  function JoinRows(rows: Table): string
  {
    if rows == [] then "" else Join(rows[0], ',') + ['\n'] + JoinRows(rows[1..])
  }

  function KlineTable(instrumentId: string, bars: seq<Kline>): Table
  {
    seq(|bars|, i requires 0 <= i < |bars| => KlineFields(instrumentId, bars[i]))
  }

  function TradeTable(instrumentId: string, venueSymbol: string, trades: seq<AggTrade>): Table
  {
    seq(|trades|, i requires 0 <= i < |trades| => TradeFields(instrumentId, venueSymbol, trades[i]))
  }

  function KlinesText(instrumentId: string, bars: seq<Kline>): string { JoinRows(KlineTable(instrumentId, bars)) }

  function TradesText(instrumentId: string, venueSymbol: string, trades: seq<AggTrade>): string
  {
    JoinRows(TradeTable(instrumentId, venueSymbol, trades))
  }

  // Reading a staging object as the table declares it: lines, then fields by position.

  function TextLines(text: string): seq<string>
  {
    var lines := SplitOn(text, '\n');
    lines[..|lines| - 1]
  }

  function TableOf(text: string): Table
  {
    Map(TextLines(text), line => SplitOn(line, ','))
  }

  predicate Clean(field: string) { ',' !in field && '\n' !in field }

  predicate CleanRow(row: seq<string>) { row != [] && forall field <- row :: Clean(field) }

  predicate CleanTable(rows: Table) { forall row <- rows :: CleanRow(row) }

  lemma {:induction false} JoinStaysOnOneLine(row: seq<string>)
    requires forall field <- row :: Clean(field)
    ensures '\n' !in Join(row, ',')
  {
    assert row != [] ==> Clean(row[0]);
    if |row| > 1 {
      JoinStaysOnOneLine(row[1..]);
    }
  }

  function RowLines(rows: Table): (lines: seq<string>)
    ensures |lines| == |rows| && forall i :: 0 <= i < |rows| ==> lines[i] == Join(rows[i], ',')
  {
    if rows == [] then [] else [Join(rows[0], ',')] + RowLines(rows[1..])
  }

  lemma {:induction false} LinesOfJoined(rows: Table)
    requires CleanTable(rows)
    ensures SplitOn(JoinRows(rows), '\n') == RowLines(rows) + [""]
  {
    if rows != [] {
      assert CleanRow(rows[0]);
      JoinStaysOnOneLine(rows[0]);
      SplitOfPlain(Join(rows[0], ','), JoinRows(rows[1..]), '\n');
      LinesOfJoined(rows[1..]);
    }
  }

  /** What was staged is read back, row by row and field by field. */
  lemma TableReadsBack(rows: Table)
    requires CleanTable(rows)
    ensures TableOf(JoinRows(rows)) == rows
  {
    LinesOfJoined(rows);
    assert TextLines(JoinRows(rows)) == RowLines(rows);
    forall i | 0 <= i < |rows| ensures SplitOn(RowLines(rows)[i], ',') == rows[i] {
      assert CleanRow(rows[i]);
      assert forall field <- rows[i] :: Clean(field);
      SplitUndoesJoin(rows[i], ',');
    }
  }

  /** A column of a one-line text is clean. */
  lemma ColumnsAreClean(line: string)
    requires '\n' !in line
    ensures forall field <- Columns(line) :: Clean(field)
  {
    var front, back := StripCuts(line);
    forall c | c in Strip(line) ensures c in line {
      assert c in front + Strip(line);
    }
    SplitHasNoSeparator(Strip(line), ',');
  }

  lemma NumbersAreClean(n: int)
    ensures Clean(IntText(n)) && ParseInt(IntText(n)) == Some(n)
  {
    IntRoundTrip(n);
  }

  /** The lines a file is split into contain no line feed. */
  predicate OneLiners(lines: seq<string>) { forall line <- lines :: '\n' !in line }

  lemma {:induction false} NonBlankLinesAreLines(lines: seq<string>)
    ensures forall line <- NonBlank(lines) :: line in lines
  {
    if lines != [] {
      NonBlankLinesAreLines(lines[1..]);
    }
  }

  /** The staged form of one archive trade line. */
  predicate StagedTrade(line: string, instrumentId: string, venueSymbol: string, row: seq<string>)
  {
    && |Columns(line)| == AGG_TRADE_COLUMNS && |row| == 10
    && row[..3] == [instrumentId, "binance", venueSymbol]
    && StagedTradeText(Columns(line), row) && StagedTradeNumbers(Columns(line), row)
  }

  predicate StagedTradeText(c: seq<string>, row: seq<string>)
    requires |c| == AGG_TRADE_COLUMNS && |row| == 10
  {
    && row[4] == c[1] && row[5] == c[2]
    && (c[6] == "True" <==> row[9] == "SELL") && (c[6] == "False" <==> row[9] == "BUY") && row[9] in {"BUY", "SELL"}
  }

  predicate StagedTradeNumbers(c: seq<string>, row: seq<string>)
    requires |c| == AGG_TRADE_COLUMNS && |row| == 10
  {
    SameNumber(row[3], c[0]) && SameNumber(row[6], c[3]) && SameNumber(row[7], c[4]) && SameInstant(row[8], c[5])
  }

  /** The staged form of one archive bar line. */
  predicate StagedKline(line: string, instrumentId: string, row: seq<string>)
  {
    var c := Columns(line);
    && |c| == KLINE_COLUMNS && |row| == 11
    && row[0] == instrumentId
    && SameInstant(row[1], c[0]) && SameInstant(row[2], c[6])
    && row[3..8] == c[1..6]
    && row[8] == c[7]
    && SameNumber(row[9], c[8])
    && row[10] == c[9]
  }

  predicate SameNumber(staged: string, source: string) { ParseInt(staged).Some? && ParseInt(staged) == ParseInt(source) }

  /** `staged` is in microseconds the instant `source` gives in its own unit. */
  predicate SameInstant(staged: string, source: string)
  {
    var value := ParseInt(source);
    && value.Some? && UnitOf(value.value).Some?
    && ParseInt(staged) == Some(ToMicros(value.value, UnitOf(value.value).value))
  }

  lemma StagedNumber(source: string, n: int)
    requires ParseInt(source) == Some(n)
    ensures SameNumber(IntText(n), source)
  {
    NumbersAreClean(n);
  }

  lemma StagedInstant(source: string, unit: Unit, micros: int)
    requires IsInstant(source, unit, micros)
    ensures SameInstant(IntText(micros), source)
  {
    NumbersAreClean(micros);
  }

  lemma DecimalsAreClean(line: string, unit: Unit, trade: AggTrade)
    requires TradeOfLine(line, unit, trade) && '\n' !in line
    ensures Clean(trade.price) && Clean(trade.quantity)
  {
    ColumnsAreClean(line);
  }

  function BarDecimals(bar: Kline): seq<string>
  {
    [bar.open, bar.high, bar.low, bar.close, bar.volume, bar.quoteVolume, bar.takerBuyBaseVolume]
  }

  lemma BarDecimalsAreClean(line: string, unit: Unit, bar: Kline)
    requires KlineOfLine(line, unit, bar) && '\n' !in line
    ensures CleanRow(BarDecimals(bar))
  {
    var c := Columns(line);
    assert BarDecimals(bar)[..5] == c[1..6];
    forall i | 0 <= i < 7 ensures BarDecimals(bar)[i] in c {
      if i < 5 {
        assert BarDecimals(bar)[i] == BarDecimals(bar)[..5][i] == c[1..6][i] == c[1 + i];
      }
    }
    ColumnsAreClean(line);
  }

  lemma TradeFieldsAreClean(trade: AggTrade, instrumentId: string, venueSymbol: string)
    requires Clean(instrumentId) && Clean(venueSymbol) && Clean(trade.price) && Clean(trade.quantity)
    ensures CleanRow(TradeFields(instrumentId, venueSymbol, trade))
  {
    NumbersAreClean(trade.aggTradeId);
    NumbersAreClean(trade.firstTradeId);
    NumbersAreClean(trade.lastTradeId);
    NumbersAreClean(trade.eventTsUs);
  }

  lemma TradeNumbersAreStaged(line: string, unit: Unit, trade: AggTrade, instrumentId: string, venueSymbol: string)
    requires TradeOfLine(line, unit, trade)
    ensures StagedTradeNumbers(Columns(line), TradeFields(instrumentId, venueSymbol, trade))
  {
    var c := Columns(line);
    StagedNumber(c[0], trade.aggTradeId);
    StagedNumber(c[3], trade.firstTradeId);
    StagedNumber(c[4], trade.lastTradeId);
    StagedInstant(c[5], unit, trade.eventTsUs);
  }

  lemma TradeFieldsAreStaged(line: string, unit: Unit, trade: AggTrade, instrumentId: string, venueSymbol: string)
    requires TradeOfLine(line, unit, trade)
    ensures StagedTrade(line, instrumentId, venueSymbol, TradeFields(instrumentId, venueSymbol, trade))
  {
    TradeNumbersAreStaged(line, unit, trade, instrumentId, venueSymbol);
  }

  lemma KlineFieldsAreClean(bar: Kline, instrumentId: string)
    requires Clean(instrumentId) && CleanRow(BarDecimals(bar))
    ensures CleanRow(KlineFields(instrumentId, bar))
  {
    assert forall i :: 0 <= i < 7 ==> BarDecimals(bar)[i] in BarDecimals(bar);
    NumbersAreClean(bar.openTimeUs);
    NumbersAreClean(bar.closeTimeUs);
    NumbersAreClean(bar.tradeCount);
  }

  lemma KlineFieldsAreStaged(line: string, unit: Unit, bar: Kline, instrumentId: string)
    requires KlineOfLine(line, unit, bar)
    ensures StagedKline(line, instrumentId, KlineFields(instrumentId, bar))
  {
    var c := Columns(line);
    StagedInstant(c[0], unit, bar.openTimeUs);
    StagedInstant(c[6], unit, bar.closeTimeUs);
    StagedNumber(c[8], bar.tradeCount);
    assert KlineFields(instrumentId, bar)[3..8] == [bar.open, bar.high, bar.low, bar.close, bar.volume];
  }

  /** Archive to staging and back: the staged trades read by position are one row per nonblank archive line,
      decimals character for character, numbers and instants unchanged in value. */
  lemma StagedTradesReadBack(lines: seq<string>, instrumentId: string, venueSymbol: string)
    requires TradesOf(lines).Ok? && OneLiners(lines) && Clean(instrumentId) && Clean(venueSymbol)
    ensures var table := TableOf(TradesText(instrumentId, venueSymbol, TradesOf(lines).value));
            && |table| == |NonBlank(lines)| == |TradesOf(lines).value|
            && forall i :: 0 <= i < |table| ==> StagedTrade(NonBlank(lines)[i], instrumentId, venueSymbol, table[i])
  {
    var trades := TradesOf(lines).value;
    TradesAreReadExactly(lines, trades);
    var unit :| TradesIn(lines, unit, trades);
    NonBlankLinesAreLines(lines);
    var table := TradeTable(instrumentId, venueSymbol, trades);
    forall i | 0 <= i < |trades|
      ensures CleanRow(table[i]) && StagedTrade(NonBlank(lines)[i], instrumentId, venueSymbol, table[i])
    {
      assert NonBlank(lines)[i] in lines;
      DecimalsAreClean(NonBlank(lines)[i], unit, trades[i]);
      TradeFieldsAreClean(trades[i], instrumentId, venueSymbol);
      TradeFieldsAreStaged(NonBlank(lines)[i], unit, trades[i], instrumentId, venueSymbol);
    }
    TableReadsBack(table);
  }

  /** The same for bars. */
  lemma StagedKlinesReadBack(lines: seq<string>, instrumentId: string)
    requires KlinesOf(lines).Ok? && OneLiners(lines) && Clean(instrumentId)
    ensures var table := TableOf(KlinesText(instrumentId, KlinesOf(lines).value));
            && |table| == |NonBlank(lines)| == |KlinesOf(lines).value|
            && forall i :: 0 <= i < |table| ==> StagedKline(NonBlank(lines)[i], instrumentId, table[i])
  {
    var bars := KlinesOf(lines).value;
    KlinesAreReadExactly(lines, bars);
    var unit :| KlinesIn(lines, unit, bars);
    NonBlankLinesAreLines(lines);
    var table := KlineTable(instrumentId, bars);
    forall i | 0 <= i < |bars| ensures CleanRow(table[i]) && StagedKline(NonBlank(lines)[i], instrumentId, table[i]) {
      assert NonBlank(lines)[i] in lines;
      BarDecimalsAreClean(NonBlank(lines)[i], unit, bars[i]);
      KlineFieldsAreClean(bars[i], instrumentId);
      KlineFieldsAreStaged(NonBlank(lines)[i], unit, bars[i], instrumentId);
    }
    TableReadsBack(table);
  }
}
