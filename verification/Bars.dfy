/** The additive-measure contract of the one-minute bars (awsnative/bars.py), over exact reals. */
module Bars {
  import opened Prelude

  datatype Trade = Trade(price: real, size: real, side: string)

  datatype Bar = Bar(open: real, high: real, low: real, close: real, volume: real, notional: real,
                     buyVol: real, sellVol: real, sqLogReturn: real, tradeCount: nat)

  /** `sqReturns` is the summed component of realized volatility, about which nothing is claimed. */
  datatype Measures = Measures(vwap: real, high: real, low: real, sqReturns: real,
                               flowImbalance: real, volume: real, tradeCount: nat)

  datatype BarError = NoTrades | LengthMismatch | NoReturn | NoBars | ZeroVolume

  /** log(close / open) ** 2, as an opaque function of the two prices. */
  type SquaredReturn = (real, real) -> real

  function Sum<T>(items: seq<T>, value: T -> real): real
  {
    if items == [] then 0.0 else value(items[0]) + Sum(items[1..], value)
  }

  function Most<T>(items: seq<T>, value: T -> real): real
    requires items != []
  {
    if |items| == 1 then value(items[0]) else
      var rest := Most(items[1..], value);
      if value(items[0]) > rest then value(items[0]) else rest
  }

  function Least<T>(items: seq<T>, value: T -> real): real
    requires items != []
  {
    if |items| == 1 then value(items[0]) else
      var rest := Least(items[1..], value);
      if value(items[0]) < rest then value(items[0]) else rest
  }

  function Price(t: Trade): real { t.price }

  function Size(t: Trade): real { t.size }

  function Value(t: Trade): real { t.price * t.size }

  function Bought(t: Trade): real { if t.side == "BUY" then t.size else 0.0 }

  function Sold(t: Trade): real { if t.side == "SELL" then t.size else 0.0 }

  function Zip(prices: seq<real>, sizes: seq<real>, sides: seq<string>): seq<Trade>
    requires |prices| == |sizes| == |sides|
  {
    seq(|prices|, i requires 0 <= i < |prices| => Trade(prices[i], sizes[i], sides[i]))
  }

  function BarOf(trades: seq<Trade>, squared: SquaredReturn): Result<Bar, BarError>
    requires trades != []
  {
    var open, close := trades[0].price, trades[|trades| - 1].price;
    if open == 0.0 || close / open <= 0.0 then Err(NoReturn) else
      Ok(Bar(open, Most(trades, Price), Least(trades, Price), close, Sum(trades, Size), Sum(trades, Value),
             Sum(trades, Bought), Sum(trades, Sold), squared(close, open), |trades|))
  }

  function BarFromTrades(prices: seq<real>, sizes: seq<real>, sides: seq<string>, squared: SquaredReturn): Result<Bar, BarError>
  {
    if prices == [] then Err(NoTrades)
    else if !(|prices| == |sizes| == |sides|) then Err(LengthMismatch)
    else BarOf(Zip(prices, sizes, sides), squared)
  }

  function SideOf(t: Trade): string { t.side }

  /** A list of trades given to bar_from_trades as its three columns. */
  function BarFromList(trades: seq<Trade>, squared: SquaredReturn): Result<Bar, BarError>
  {
    BarFromTrades(Map(trades, Price), Map(trades, Size), Map(trades, SideOf), squared)
  }

  lemma BarFromListIsBarOf(trades: seq<Trade>, squared: SquaredReturn)
    requires trades != []
    ensures BarFromList(trades, squared) == BarOf(trades, squared)
  {
    assert Zip(Map(trades, Price), Map(trades, Size), Map(trades, SideOf)) == trades;
  }

  function BarVolume(b: Bar): real { b.volume }

  function BarNotional(b: Bar): real { b.notional }

  function BarBought(b: Bar): real { b.buyVol }

  function BarSold(b: Bar): real { b.sellVol }

  function BarReturn(b: Bar): real { b.sqLogReturn }

  function BarHigh(b: Bar): real { b.high }

  function BarLow(b: Bar): real { b.low }

  function Count(bars: seq<Bar>): nat { if bars == [] then 0 else bars[0].tradeCount + Count(bars[1..]) }

  function Rollup(bars: seq<Bar>): Result<Measures, BarError>
  {
    if bars == [] then Err(NoBars) else
      var volume := Sum(bars, BarVolume);
      if volume <= 0.0 then Err(ZeroVolume) else
        Ok(Measures(Sum(bars, BarNotional) / volume, Most(bars, BarHigh), Least(bars, BarLow), Sum(bars, BarReturn),
                    (Sum(bars, BarBought) - Sum(bars, BarSold)) / volume, volume, Count(bars)))
  }

  // Grain invariance.

  /** Groups a bar can be built from: non-empty, at positive prices. */
  predicate Priced(groups: seq<seq<Trade>>)
  {
    forall i :: 0 <= i < |groups| ==> groups[i] != [] && PositivePrices(groups[i])
  }

  predicate PositivePrices(trades: seq<Trade>) { forall i :: 0 <= i < |trades| ==> trades[i].price > 0.0 }

  lemma PricedGroupHasBar(g: seq<Trade>, squared: SquaredReturn)
    requires g != [] && PositivePrices(g)
    ensures BarFromList(g, squared).Ok? && BarFromList(g, squared) == BarOf(g, squared)
  {
    QuotientIsPositive(g[|g| - 1].price, g[0].price);
    BarFromListIsBarOf(g, squared);
  }

  lemma QuotientIsPositive(a: real, b: real)
    requires a > 0.0 && b > 0.0
    ensures a / b > 0.0
  {
  }

  /** One bar per group. */
  function BarsOf(groups: seq<seq<Trade>>, squared: SquaredReturn): (bars: seq<Bar>)
    requires Priced(groups)
  {
    if groups == [] then [] else
      PricedGroupHasBar(groups[0], squared);
      [BarFromList(groups[0], squared).value] + BarsOf(groups[1..], squared)
  }

  lemma {:induction false} SumAppend<T>(a: seq<T>, b: seq<T>, value: T -> real)
    ensures Sum(a + b, value) == Sum(a, value) + Sum(b, value)
  {
    if a == [] {
      assert a + b == b;
    } else {
      SumAppend(a[1..], b, value);
      assert (a + b)[1..] == a[1..] + b;
    }
  }

  lemma {:induction false} MostAppend<T>(a: seq<T>, b: seq<T>, value: T -> real)
    requires a != [] && b != []
    ensures Most(a + b, value) == if Most(a, value) > Most(b, value) then Most(a, value) else Most(b, value)
  {
    assert (a + b)[1..] == a[1..] + b;
    if |a| > 1 {
      MostAppend(a[1..], b, value);
    } else {
      assert a[1..] + b == b;
    }
  }

  lemma {:induction false} LeastAppend<T>(a: seq<T>, b: seq<T>, value: T -> real)
    requires a != [] && b != []
    ensures Least(a + b, value) == if Least(a, value) < Least(b, value) then Least(a, value) else Least(b, value)
  {
    assert (a + b)[1..] == a[1..] + b;
    if |a| > 1 {
      LeastAppend(a[1..], b, value);
    } else {
      assert a[1..] + b == b;
    }
  }

  lemma {:induction false} SumsCompose(groups: seq<seq<Trade>>, squared: SquaredReturn)
    requires Priced(groups)
    ensures var bars, all := BarsOf(groups, squared), Flatten(groups);
            && Sum(bars, BarVolume) == Sum(all, Size) && Sum(bars, BarNotional) == Sum(all, Value)
            && Sum(bars, BarBought) == Sum(all, Bought) && Sum(bars, BarSold) == Sum(all, Sold)
            && Count(bars) == |all| && |bars| == |groups|
  {
    if groups != [] {
      PricedGroupHasBar(groups[0], squared);
      SumsCompose(groups[1..], squared);
      var rest := Flatten(groups[1..]);
      SumAppend(groups[0], rest, Size);
      SumAppend(groups[0], rest, Value);
      SumAppend(groups[0], rest, Bought);
      SumAppend(groups[0], rest, Sold);
    }
  }

  lemma {:induction false} ExtremaCompose(groups: seq<seq<Trade>>, squared: SquaredReturn)
    requires Priced(groups) && groups != []
    ensures Flatten(groups) != [] && BarsOf(groups, squared) != []
    ensures Most(BarsOf(groups, squared), BarHigh) == Most(Flatten(groups), Price)
    ensures Least(BarsOf(groups, squared), BarLow) == Least(Flatten(groups), Price)
  {
    PricedGroupHasBar(groups[0], squared);
    if |groups| == 1 {
      assert groups[0] + [] == groups[0];
    } else {
      ExtremaCompose(groups[1..], squared);
      MostAppend(groups[0], Flatten(groups[1..]), Price);
      LeastAppend(groups[0], Flatten(groups[1..]), Price);
      assert BarsOf(groups, squared)[1..] == BarsOf(groups[1..], squared);
    }
  }

  lemma {:induction false} FlattenIsPriced(groups: seq<seq<Trade>>)
    requires Priced(groups)
    ensures PositivePrices(Flatten(groups))
  {
    if groups != [] {
      FlattenIsPriced(groups[1..]);
    }
  }

  /** Everything a rollup reports except the realized-volatility component. */
  predicate SameMeasures(a: Measures, b: Measures) { a.(sqReturns := 0.0) == b.(sqReturns := 0.0) }

  /** Grain invariance. However a list of trades is cut into non-empty consecutive groups, rolling up the
      groups' bars answers exactly as rolling up the one bar of all trades: with the same vwap, high, low,
      volume, flow imbalance and count, or with the same refusal. */
  lemma {:induction false} GrainDoesNotMatter(groups: seq<seq<Trade>>, squared: SquaredReturn)
    requires Priced(groups) && groups != []
    ensures BarFromList(Flatten(groups), squared).Ok?
    ensures var fine, coarse := Rollup(BarsOf(groups, squared)), Rollup([BarFromList(Flatten(groups), squared).value]);
            if fine.Ok? then coarse.Ok? && SameMeasures(fine.value, coarse.value) else coarse == fine
  {
    SumsCompose(groups, squared);
    ExtremaCompose(groups, squared);
    FlattenIsPriced(groups);
    PricedGroupHasBar(Flatten(groups), squared);
    RollupOne(BarFromList(Flatten(groups), squared).value);
  }

  lemma RollupOne(b: Bar)
    ensures Rollup([b]) == if b.volume <= 0.0 then Err(ZeroVolume) else
              Ok(Measures(b.notional / b.volume, b.high, b.low, b.sqLogReturn, (b.buyVol - b.sellVol) / b.volume,
                          b.volume, b.tradeCount))
  {
    SumOne(b, BarVolume);
    SumOne(b, BarNotional);
    SumOne(b, BarBought);
    SumOne(b, BarSold);
    SumOne(b, BarReturn);
    assert [b][1..] == [] && Count([b]) == b.tradeCount;
  }

  lemma SumOne<T>(x: T, value: T -> real)
    ensures Sum([x], value) == value(x)
  {
    var one := [x];
    assert one[1..] == [] && Sum(one, value) == value(one[0]) + Sum(one[1..], value);
  }

  // What the measures mean.

  lemma {:induction false} NotionalBetween(trades: seq<Trade>, low: real, high: real)
    requires forall t <- trades :: t.size >= 0.0 && low <= t.price <= high
    ensures low * Sum(trades, Size) <= Sum(trades, Value) <= high * Sum(trades, Size)
  {
    if trades != [] {
      var t, rest := trades[0], Sum(trades[1..], Size);
      NotionalBetween(trades[1..], low, high);
      ScaleBetween(t.price, t.size, low, high);
      assert low * (t.size + rest) == low * t.size + low * rest;
      assert high * (t.size + rest) == high * t.size + high * rest;
    }
  }

  lemma ScaleBetween(price: real, size: real, low: real, high: real)
    requires size >= 0.0 && low <= price <= high
    ensures low * size <= price * size <= high * size
  {
    assert (price - low) * size >= 0.0 && (high - price) * size >= 0.0;
  }

  lemma {:induction false} FlowBetween(trades: seq<Trade>)
    requires forall t <- trades :: t.size >= 0.0
    ensures 0.0 <= Sum(trades, Bought) && 0.0 <= Sum(trades, Sold)
    ensures Sum(trades, Bought) + Sum(trades, Sold) <= Sum(trades, Size)
  {
    if trades != [] {
      FlowBetween(trades[1..]);
      assert trades[0] in trades;
    }
  }

  lemma {:induction false} PricesBetween(trades: seq<Trade>, t: Trade)
    requires t in trades
    ensures Least(trades, Price) <= t.price <= Most(trades, Price)
  {
    if |trades| > 1 && t in trades[1..] {
      PricesBetween(trades[1..], t);
    }
  }

  lemma QuotientBetween(n: real, d: real, low: real, high: real)
    requires d > 0.0 && low * d <= n <= high * d
    ensures low <= n / d <= high
  {
    var q := n / d;
    assert q * d == n;
    DivideOut(q - low, d);
    DivideOut(high - q, d);
  }

  lemma DivideOut(x: real, d: real)
    requires d > 0.0 && x * d >= 0.0
    ensures x >= 0.0
  {
  }

  lemma VwapBetween(all: seq<Trade>)
    requires all != [] && Sum(all, Size) > 0.0 && NonNegativeSizes(all)
    ensures Least(all, Price) <= Sum(all, Value) / Sum(all, Size) <= Most(all, Price)
  {
    var low, high := Least(all, Price), Most(all, Price);
    forall t | t in all ensures low <= t.price <= high && t.size >= 0.0 {
      PricesBetween(all, t);
    }
    NotionalBetween(all, low, high);
    QuotientBetween(Sum(all, Value), Sum(all, Size), low, high);
  }

  predicate NonNegativeSizes(trades: seq<Trade>) { forall t <- trades :: t.size >= 0.0 }

  lemma ImbalanceBetween(all: seq<Trade>)
    requires Sum(all, Size) > 0.0 && NonNegativeSizes(all)
    ensures -1.0 <= (Sum(all, Bought) - Sum(all, Sold)) / Sum(all, Size) <= 1.0
  {
    FlowBetween(all);
    QuotientBetween(Sum(all, Bought) - Sum(all, Sold), Sum(all, Size), -1.0, 1.0);
  }

  /** With sizes that are not negative, the vwap of any grouping lies between the extreme prices, and the flow
      imbalance between -1 and 1. */
  lemma MeasuresAreBounded(groups: seq<seq<Trade>>, squared: SquaredReturn)
    requires Priced(groups) && groups != [] && NonNegativeSizes(Flatten(groups))
    requires Rollup(BarsOf(groups, squared)).Ok?
    ensures var m := Rollup(BarsOf(groups, squared)).value;
            m.low <= m.vwap <= m.high && -1.0 <= m.flowImbalance <= 1.0
  {
    SumsCompose(groups, squared);
    ExtremaCompose(groups, squared);
    VwapBetween(Flatten(groups));
    ImbalanceBetween(Flatten(groups));
  }

  // What the measures are, said of the trades themselves.

  /** A trade's size, counted as flow: bought is positive and sold negative. */
  function Flow(t: Trade): real { if t.side == "BUY" then t.size else if t.side == "SELL" then -t.size else 0.0 }

  lemma {:induction false} FlowIsBoughtLessSold(trades: seq<Trade>)
    ensures Sum(trades, Flow) == Sum(trades, Bought) - Sum(trades, Sold)
  {
    if trades != [] {
      FlowIsBoughtLessSold(trades[1..]);
    }
  }

  predicate IsHighest(trades: seq<Trade>, price: real) { (exists t <- trades :: t.price == price) && forall t <- trades :: t.price <= price }

  predicate IsLowest(trades: seq<Trade>, price: real) { (exists t <- trades :: t.price == price) && forall t <- trades :: t.price >= price }

  lemma {:induction false} ExtremaAreTraded(trades: seq<Trade>)
    requires trades != []
    ensures IsHighest(trades, Most(trades, Price)) && IsLowest(trades, Least(trades, Price))
  {
    assert trades == [trades[0]] + trades[1..];
    assert trades[0] in trades && Price(trades[0]) == trades[0].price;
    if |trades| > 1 {
      ExtremaAreTraded(trades[1..]);
      var high :| high in trades[1..] && high.price == Most(trades[1..], Price);
      var low :| low in trades[1..] && low.price == Least(trades[1..], Price);
      assert high in trades && low in trades;
    }
  }

  /** The measures are those of the trades: their number, volume and extreme prices, the price at which all of it
      would have cost the same, and the share by which more was bought than sold. */
  predicate Measure(m: Measures, all: seq<Trade>)
  {
    && m.tradeCount == |all| && m.volume == Sum(all, Size)
    && IsRatio(m.vwap, Sum(all, Value), m.volume) && IsRatio(m.flowImbalance, Sum(all, Flow), m.volume)
    && IsHighest(all, m.high) && IsLowest(all, m.low)
  }

  predicate IsRatio(ratio: real, n: real, d: real) { ratio * d == n }

  lemma QuotientIsRatio(n: real, d: real)
    ensures d > 0.0 ==> IsRatio(n / d, n, d)
  {
  }

  lemma RollupRatios(bars: seq<Bar>)
    requires bars != []
    ensures var volume, rolled := Sum(bars, BarVolume), Rollup(bars);
            && (rolled.Ok? <==> volume > 0.0)
            && (rolled.Ok? ==>
                  && IsRatio(rolled.value.vwap, Sum(bars, BarNotional), volume)
                  && IsRatio(rolled.value.flowImbalance, Sum(bars, BarBought) - Sum(bars, BarSold), volume)
                  && rolled.value.volume == volume && rolled.value.tradeCount == Count(bars)
                  && rolled.value.high == Most(bars, BarHigh) && rolled.value.low == Least(bars, BarLow))
  {
    QuotientIsRatio(Sum(bars, BarNotional), Sum(bars, BarVolume));
    QuotientIsRatio(Sum(bars, BarBought) - Sum(bars, BarSold), Sum(bars, BarVolume));
  }

  /** However the trades are grouped, a rollup is refused exactly when nothing was traded, and otherwise reports
      the measures of the trades. */
  lemma MeasuresAreTheTrades(groups: seq<seq<Trade>>, squared: SquaredReturn)
    requires Priced(groups) && groups != []
    ensures var all, rolled := Flatten(groups), Rollup(BarsOf(groups, squared));
            && (rolled.Ok? <==> Sum(all, Size) > 0.0)
            && (rolled.Ok? ==> Measure(rolled.value, all))
  {
    SumsCompose(groups, squared);
    ExtremaCompose(groups, squared);
    ExtremaAreTraded(Flatten(groups));
    FlowIsBoughtLessSold(Flatten(groups));
    RollupRatios(BarsOf(groups, squared));
  }

  /** A bar is refused exactly when there is no trade, the columns differ in length, or the first and last prices
      have no positive quotient; its opening price is the first and its closing price the last. */
  lemma BarRefusedExactlyWhen(prices: seq<real>, sizes: seq<real>, sides: seq<string>, squared: SquaredReturn)
    ensures var bar := BarFromTrades(prices, sizes, sides, squared);
            && (bar.Ok? <==> prices != [] && |prices| == |sizes| == |sides| && prices[0] * prices[|prices| - 1] > 0.0)
            && (bar.Ok? ==> bar.value.open == prices[0] && bar.value.close == prices[|prices| - 1])
  {
    if prices != [] && |prices| == |sizes| == |sides| && prices[0] != 0.0 {
      SameSign(prices[0], prices[|prices| - 1]);
    }
  }

  lemma SameSign(open: real, close: real)
    requires open != 0.0
    ensures close / open > 0.0 <==> open * close > 0.0
  {
    var q := close / open;
    assert q * open == close;
    if open > 0.0 {
      ProductSign(open, q);
      ProductSign(open, close);
    } else {
      ProductSign(-open, q);
      ProductSign(-open, -close);
      assert -open * q == -close && -open * -close == open * close;
    }
  }

  lemma ProductSign(x: real, y: real)
    requires x > 0.0
    ensures x * y > 0.0 <==> y > 0.0
  {
  }
}
