/** `PerformanceAnalyzer`: aggregate statistics over the tracker's output
    (total return, drawdown extremes, trade counts and ratios, and the
    value-relative "exposure" series), stored into its metrics record. */
module PerformanceAnalysis {
  import opened Types
  import opened Positions
  import opened PortfolioTracking

  /** The trade table handed to the analyzer: with the tracker's `PnL`
      column, or a bare trade log without it. */
  datatype TradesTable = WithPnl(pnlRows: seq<PnlRow>) | WithoutPnl(tradeRows: seq<Trade>)

  /** `metrics['returns']`. Annualized return and volatility are carried
      as given; None is NaN or infinity. */
  datatype ReturnMetrics = ReturnMetrics(totalReturn: Option<real>, annualizedReturn: Option<real>,
                                         volatility: Option<real>, sharpeRatio: Option<real>)

  /** `metrics['drawdown']`. */
  datatype DrawdownMetrics = DrawdownMetrics(maxDrawdown: Option<real>, avgDrawdown: Option<real>,
                                             currentDrawdown: Option<real>)

  /** `metrics['trades']`. */
  datatype TradeMetrics = TradeMetrics(totalTrades: nat, winningTrades: nat, losingTrades: nat,
                                       winRate: real, avgWin: real, avgLoss: real,
                                       largestWin: real, largestLoss: real, profitFactor: real)

  /** `metrics['exposure']`. */
  datatype ExposureMetrics = ExposureMetrics(averageExposure: Option<real>, maxExposure: Option<real>,
                                             currentExposure: Option<real>)

  /** The four sub-dictionaries of `metrics`; None while still empty. */
  datatype Metrics = Metrics(returnMetrics: Option<ReturnMetrics>, drawdownMetrics: Option<DrawdownMetrics>,
                             tradeMetrics: Option<TradeMetrics>, exposureMetrics: Option<ExposureMetrics>)

  const NoMetrics := Metrics(None, None, None, None)

  // ---------------------------------------------------------------------
  // Column filters
  // ---------------------------------------------------------------------

  /** `xs[xs > 0]`. */
  function Positives(xs: seq<real>): (r: seq<real>)
    ensures |r| <= |xs|
    ensures forall i :: 0 <= i < |r| ==> r[i] > 0.0
    ensures forall x :: x in r <==> x in xs && x > 0.0
  {
    if xs == [] then []
    else (if xs[0] > 0.0 then [xs[0]] else []) + Positives(xs[1..])
  }

  /** `xs[xs < 0]`. */
  function Negatives(xs: seq<real>): (r: seq<real>)
    ensures |r| <= |xs|
    ensures forall i :: 0 <= i < |r| ==> r[i] < 0.0
    ensures forall x :: x in r <==> x in xs && x < 0.0
  {
    if xs == [] then []
    else (if xs[0] < 0.0 then [xs[0]] else []) + Negatives(xs[1..])
  }

  /** `xs[xs <= 0]`. */
  function NonPositives(xs: seq<real>): (r: seq<real>)
    ensures |r| <= |xs|
    ensures forall i :: 0 <= i < |r| ==> r[i] <= 0.0
    ensures forall x :: x in r <==> x in xs && x <= 0.0
  {
    if xs == [] then []
    else (if xs[0] <= 0.0 then [xs[0]] else []) + NonPositives(xs[1..])
  }

  /** The cells of a column that are not NaN (what `min` and `mean` see). */
  function Defined(xs: seq<Option<real>>): (r: seq<real>)
    ensures |r| <= |xs|
    ensures forall x :: x in r <==> Some(x) in xs
  {
    if xs == [] then []
    else (if xs[0].Some? then [xs[0].value] else []) + Defined(xs[1..])
  }

  /** The positive filter keeps every positive value as often as it occurs. */
  lemma {:induction false} PositivesCounts(xs: seq<real>)
    ensures forall x :: multiset(Positives(xs))[x] == if x > 0.0 then multiset(xs)[x] else 0
  {
    if xs != [] {
      PositivesCounts(xs[1..]);
      assert xs == [xs[0]] + xs[1..];
    }
  }

  /** The negative filter keeps every negative value as often as it occurs. */
  lemma {:induction false} NegativesCounts(xs: seq<real>)
    ensures forall x :: multiset(Negatives(xs))[x] == if x < 0.0 then multiset(xs)[x] else 0
  {
    if xs != [] {
      NegativesCounts(xs[1..]);
      assert xs == [xs[0]] + xs[1..];
    }
  }

  /** The non-positive filter keeps every such value as often as it occurs. */
  lemma {:induction false} NonPositivesCounts(xs: seq<real>)
    ensures forall x :: multiset(NonPositives(xs))[x] == if x <= 0.0 then multiset(xs)[x] else 0
  {
    if xs != [] {
      NonPositivesCounts(xs[1..]);
      assert xs == [xs[0]] + xs[1..];
    }
  }

  /** Dropping NaN cells keeps every number as often as it occurs. */
  lemma {:induction false} DefinedCounts(xs: seq<Option<real>>)
    ensures forall x :: multiset(Defined(xs))[x] == multiset(xs)[Some(x)]
  {
    if xs != [] {
      DefinedCounts(xs[1..]);
      assert xs == [xs[0]] + xs[1..];
    }
  }

  /** Strictly positive and strictly negative entries never outnumber the
      column; together with the zeros they make it up exactly. */
  lemma {:induction false} SignCounts(xs: seq<real>)
    ensures |Positives(xs)| + |Negatives(xs)| <= |xs|
    ensures |Positives(xs)| + |NonPositives(xs)| == |xs|
  {
    if xs != [] {
      SignCounts(xs[1..]);
    }
  }

  // ---------------------------------------------------------------------
  // Return metrics
  // ---------------------------------------------------------------------

  /** `(final / initial - 1) * 100`; raises on an empty table; None where
      the initial value is 0 (infinity or NaN). */
  function TotalReturn(v: seq<real>): (r: Result<Option<real>>)
    ensures r.Err? <==> |v| == 0
    ensures r.Ok? && v[0] != 0.0 ==> r.value.Some? && r.value.value * v[0] == (v[|v| - 1] - v[0]) * 100.0
    ensures r.Ok? && v[0] == 0.0 ==> r.value.None?
  {
    if |v| == 0 then Err("single positional indexer is out-of-bounds")
    else if v[0] == 0.0 then Ok(None)
    else
      var q := v[|v| - 1] / v[0];
      assert q * v[0] == v[|v| - 1];
      assert (q - 1.0) * 100.0 * v[0] == (q * v[0] - v[0]) * 100.0;
      Ok(Some((q - 1.0) * 100.0))
  }

  /** `annualized_return / volatility if volatility != 0 else 0`, where a
      NaN on either side gives NaN. */
  function SharpeRatio(annualized: Option<real>, volatility: Option<real>): Option<real>
  {
    if volatility.None? then None
    else if volatility.value == 0.0 then Some(0.0)
    else if annualized.None? then None
    else Some(annualized.value / volatility.value)
  }

  /** The guard: zero volatility gives a Sharpe ratio of 0, never a
      division; otherwise, with a positive volatility, the ratio has the
      sign of the annualized return and scales back to it. */
  lemma SharpeGuard(annualized: Option<real>, volatility: Option<real>)
    ensures volatility == Some(0.0) ==> SharpeRatio(annualized, volatility) == Some(0.0)
    ensures volatility.Some? && volatility.value > 0.0 && annualized.Some? ==>
              && SharpeRatio(annualized, volatility).Some?
              && SharpeRatio(annualized, volatility).value * volatility.value == annualized.value
              && (SharpeRatio(annualized, volatility).value >= 0.0 <==> annualized.value >= 0.0)
  {
    if volatility.Some? && volatility.value > 0.0 && annualized.Some? {
      var s := annualized.value / volatility.value;
      assert s * volatility.value == annualized.value;
      if s < 0.0 {
        MulStrict(s, 0.0, volatility.value);
      }
    }
  }

  function ReturnMetricsOf(v: seq<real>, annualized: Option<real>, volatility: Option<real>): (r: Result<ReturnMetrics>)
    ensures r.Err? <==> |v| == 0
    ensures r.Ok? ==> Ok(r.value.totalReturn) == TotalReturn(v) &&
                      r.value.sharpeRatio == SharpeRatio(annualized, volatility)
  {
    var total := TotalReturn(v);
    if total.Err? then Err(total.message)
    else Ok(ReturnMetrics(total.value, annualized, volatility, SharpeRatio(annualized, volatility)))
  }

  // ---------------------------------------------------------------------
  // Drawdown metrics
  // ---------------------------------------------------------------------

  /** `max_drawdown`, `avg_drawdown` and `current_drawdown` over the
      running-max drawdown column; 0 each for an empty table. `min` and
      `mean` skip NaN and give NaN when nothing is left. */
  function DrawdownMetricsOf(v: seq<real>): (r: DrawdownMetrics)
    ensures |v| == 0 ==> r == DrawdownMetrics(Some(0.0), Some(0.0), Some(0.0))
    ensures |v| > 0 ==> r.currentDrawdown == DrawdownAt(v, |v| - 1)
  {
    if |v| == 0 then DrawdownMetrics(Some(0.0), Some(0.0), Some(0.0))
    else
      var dd := Defined(Drawdowns(v));
      var below := Negatives(dd);
      DrawdownMetrics(if |dd| == 0 then None else Some(MinOf(dd)),
                      if |below| == 0 then None else Some(Mean(below)),
                      Drawdowns(v)[|v| - 1])
  }

  /** With a positive first value every drawdown cell is defined and not
      positive. */
  lemma DrawdownsDefined(v: seq<real>)
    requires |v| > 0 && v[0] > 0.0
    ensures forall t :: 0 <= t < |v| ==> Drawdowns(v)[t].Some? && Drawdowns(v)[t].value <= 0.0
  {
    forall t | 0 <= t < |v|
      ensures Drawdowns(v)[t].Some? && Drawdowns(v)[t].value <= 0.0
    {
      RunningMaxMonotone(v, 0, t);
      DrawdownSign(v, t);
    }
  }

  /** A mean of negative entries is negative and no smaller than their
      minimum. */
  lemma MeanOfNegatives(xs: seq<real>)
    requires |xs| > 0 && forall i :: 0 <= i < |xs| ==> xs[i] < 0.0
    ensures MinOf(xs) <= Mean(xs) < 0.0
  {
    MeanSign(xs);
    MeanAtLeastMin(xs);
  }

  /** For a positive first value: the maximum drawdown, the average of the
      negative drawdowns and the current drawdown are all defined (the
      average only when some drawdown is negative) and not positive; the
      maximum drawdown is the deepest of them; and it is 0 exactly when the
      value never fell below its running maximum. */
  lemma DrawdownMetricsSigns(v: seq<real>)
    requires |v| > 0 && v[0] > 0.0
    ensures var m := DrawdownMetricsOf(v);
            && m.maxDrawdown.Some? && m.currentDrawdown.Some?
            && m.maxDrawdown.value <= m.currentDrawdown.value <= 0.0
            && (m.avgDrawdown.Some? ==> m.maxDrawdown.value <= m.avgDrawdown.value < 0.0)
            && (m.avgDrawdown.None? <==> forall t :: 0 <= t < |v| ==> v[t] == RunningMax(v, t))
            && (m.maxDrawdown.value == 0.0 <==> forall t :: 0 <= t < |v| ==> v[t] == RunningMax(v, t))
            && (forall t :: 0 <= t < |v| ==> Drawdowns(v)[t].Some? && m.maxDrawdown.value <= Drawdowns(v)[t].value)
            && (exists t :: 0 <= t < |v| && Drawdowns(v)[t] == m.maxDrawdown)
            && (m.avgDrawdown.Some? ==> m.avgDrawdown.value == Mean(Negatives(Defined(Drawdowns(v)))))
  {
    DrawdownLevels(v);
    DrawdownFlat(v);
    DrawdownExtremes(v);
  }

  /** The maximum drawdown is the deepest drawdown of any bar and is reached
      at some bar; the average drawdown is the mean of the negative ones. */
  lemma DrawdownExtremes(v: seq<real>)
    requires |v| > 0 && v[0] > 0.0
    ensures var m := DrawdownMetricsOf(v);
            && m.maxDrawdown.Some?
            && (forall t :: 0 <= t < |v| ==> Drawdowns(v)[t].Some? && m.maxDrawdown.value <= Drawdowns(v)[t].value)
            && (exists t :: 0 <= t < |v| && Drawdowns(v)[t] == m.maxDrawdown)
            && (m.avgDrawdown.Some? ==> m.avgDrawdown.value == Mean(Negatives(Defined(Drawdowns(v)))))
  {
    var d := Drawdowns(v);
    DrawdownsDefined(v);
    var dd := Defined(d);
    assert d[0].value in dd;
    var lo := MinOf(dd);
    forall t | 0 <= t < |v| ensures lo <= d[t].value {
      assert d[t].value in dd;
    }
    assert lo in dd;
    assert Some(lo) in d;
  }

  /** The ordering half of DrawdownMetricsSigns. */
  lemma DrawdownLevels(v: seq<real>)
    requires |v| > 0 && v[0] > 0.0
    ensures var m := DrawdownMetricsOf(v);
            && m.maxDrawdown.Some? && m.currentDrawdown.Some?
            && m.maxDrawdown.value <= m.currentDrawdown.value <= 0.0
            && (m.avgDrawdown.Some? ==> m.maxDrawdown.value <= m.avgDrawdown.value < 0.0)
  {
    var d := Drawdowns(v);
    DrawdownsDefined(v);
    var dd := Defined(d);
    var below := Negatives(dd);
    assert d[|v| - 1].value in dd;
    var lo := MinOf(dd);
    if |below| > 0 {
      MeanOfNegatives(below);
      assert MinOf(below) in dd;
    }
  }

  /** The flat-curve half of DrawdownMetricsSigns: no drawdown at all
      exactly when the value is always at its running maximum. */
  lemma DrawdownFlat(v: seq<real>)
    requires |v| > 0 && v[0] > 0.0
    ensures var m := DrawdownMetricsOf(v);
            && m.maxDrawdown.Some?
            && (m.avgDrawdown.None? <==> forall t :: 0 <= t < |v| ==> v[t] == RunningMax(v, t))
            && (m.maxDrawdown.value == 0.0 <==> forall t :: 0 <= t < |v| ==> v[t] == RunningMax(v, t))
  {
    var d := Drawdowns(v);
    DrawdownsDefined(v);
    var dd := Defined(d);
    assert d[|v| - 1].value in dd;
    AllZeroColumn(dd);
    ZeroDrawdownsAtMax(v);
    var m := DrawdownMetricsOf(v);
    assert m.maxDrawdown == Some(MinOf(dd));
    assert m.avgDrawdown.None? <==> |Negatives(dd)| == 0;
  }

  /** A non-empty column with no positive entry has no negative entry, and
      has minimum 0, exactly when all its entries are 0. */
  lemma AllZeroColumn(dd: seq<real>)
    requires |dd| > 0 && forall x :: x in dd ==> x <= 0.0
    ensures |Negatives(dd)| == 0 <==> forall x :: x in dd ==> x == 0.0
    ensures MinOf(dd) == 0.0 <==> forall x :: x in dd ==> x == 0.0
  {
    var below := Negatives(dd);
    assert |below| > 0 ==> below[0] in dd && below[0] < 0.0;
    assert MinOf(dd) in dd;
    if x :| x in dd && x != 0.0 {
      assert x in below;
      var i :| 0 <= i < |dd| && dd[i] == x;
    }
  }

  /** Every defined drawdown is 0 exactly when the value is always at its
      running maximum. */
  lemma ZeroDrawdownsAtMax(v: seq<real>)
    requires |v| > 0 && v[0] > 0.0
    ensures (forall x :: x in Defined(Drawdowns(v)) ==> x == 0.0) <==>
            (forall t :: 0 <= t < |v| ==> v[t] == RunningMax(v, t))
  {
    var d := Drawdowns(v);
    var dd := Defined(d);
    forall t | 0 <= t < |v|
      ensures d[t].Some? && (d[t].value == 0.0 <==> v[t] == RunningMax(v, t))
    {
      RunningMaxMonotone(v, 0, t);
      DrawdownSign(v, t);
    }
    if forall x :: x in dd ==> x == 0.0 {
      forall t | 0 <= t < |v| ensures v[t] == RunningMax(v, t) {
        assert d[t].value in dd;
      }
    } else {
      var x :| x in dd && x != 0.0;
      var t :| 0 <= t < |d| && d[t] == Some(x);
      assert v[t] != RunningMax(v, t);
    }
  }

  // ---------------------------------------------------------------------
  // Trade metrics
  // ---------------------------------------------------------------------

  /** The `Value` column of the EXIT trades (`Type` contains "EXIT"). */
  function ExitValues(trades: seq<Trade>): (r: seq<real>)
    ensures |r| <= |trades|
  {
    if trades == [] then []
    else (if trades[0].kind == ExitKind then [trades[0].value] else []) + ExitValues(trades[1..])
  }

  function TableSize(t: TradesTable): nat
  {
    match t
    case WithPnl(rows) => |rows|
    case WithoutPnl(rows) => |rows|
  }

  const ZeroTradeMetrics := TradeMetrics(0, 0, 0, 0.0, 0.0, 0.0, 0.0, 0.0, 0.0)

  /** `calculate_trade_metrics`: all zeros for an empty table; without a
      PnL column only the EXIT trades are counted, split by the sign of
      their value; with one, wins and losses are the rows of positive and
      negative PnL. */
  function TradeMetricsOf(t: TradesTable): (r: TradeMetrics)
    ensures TableSize(t) == 0 ==> r == ZeroTradeMetrics
    ensures t.WithoutPnl? && TableSize(t) > 0 ==>
              r.totalTrades == |ExitValues(t.tradeRows)| && r.winRate == 0.0 && r.profitFactor == 0.0
  {
    if TableSize(t) == 0 then ZeroTradeMetrics
    else match t
      case WithoutPnl(rows) =>
        var exits := ExitValues(rows);
        TradeMetrics(|exits|, |Positives(exits)|, |NonPositives(exits)|, 0.0, 0.0, 0.0, 0.0, 0.0, 0.0)
      case WithPnl(rows) =>
        var pnl := PnlColumn(rows);
        var wins := Positives(pnl);
        var losses := Negatives(pnl);
        TradeMetrics(|rows|, |wins|, |losses|, WinRate(|wins|, |rows|), MeanOrZero(wins), MeanOrZero(losses),
                     MaxOf(pnl), MinOf(pnl), ProfitFactor(wins, losses))
  }

  /** `len(winning) / len(trades) * 100 if len(trades) > 0 else 0`. */
  function WinRate(wins: nat, total: nat): real
  {
    if total > 0 then wins as real / total as real * 100.0 else 0.0
  }

  /** `xs.mean() if len(xs) > 0 else 0`. */
  function MeanOrZero(xs: seq<real>): real
  {
    if |xs| > 0 then Mean(xs) else 0.0
  }

  /** `abs(sum(wins) / sum(losses))` when there are losses summing to
      something other than 0, else 0. */
  function ProfitFactor(wins: seq<real>, losses: seq<real>): real
  {
    GrossFactor(Sum(wins), Sum(losses), |losses| > 0)
  }

  /** |gross profit / gross loss| when there are losses that sum to a
      non-zero amount, 0 otherwise. */
  function GrossFactor(profit: real, loss: real, hasLosses: bool): real
  {
    if hasLosses && loss != 0.0 then Abs(profit / loss) else 0.0
  }

  /** A win rate over a positive trade count is the percentage of wins, in
      [0, 100] when the wins do not outnumber the trades. */
  lemma WinRatePercent(wins: nat, total: nat)
    requires 0 < total && wins <= total
    ensures WinRate(wins, total) * total as real == wins as real * 100.0
    ensures 0.0 <= WinRate(wins, total) <= 100.0
  {
    var w, n := wins as real, total as real;
    QuotientAtMost(w, n, 1.0);
    QuotientAtLeast(w, n, 0.0);
    var q := w / n;
    assert q * n == w;
    assert q * 100.0 * n == w * 100.0;
  }

  lemma NegatedDivisor(a: real, b: real)
    requires b > 0.0
    ensures a / -b == -(a / b)
  {
  }

  /** With positive wins and negative losses, the profit factor is gross
      profit over gross loss (0 without losses), and never negative. */
  lemma ProfitFactorRatio(wins: seq<real>, losses: seq<real>)
    requires forall i :: 0 <= i < |wins| ==> wins[i] > 0.0
    requires forall i :: 0 <= i < |losses| ==> losses[i] < 0.0
    ensures |losses| == 0 ==> ProfitFactor(wins, losses) == 0.0
    ensures |losses| > 0 ==> Sum(losses) < 0.0 && ProfitFactor(wins, losses) == Sum(wins) / -Sum(losses)
    ensures ProfitFactor(wins, losses) >= 0.0
  {
    SumNonNegative(wins);
    if |losses| > 0 {
      SumNegative(losses);
    }
    FactorOfTotals(Sum(wins), Sum(losses), |losses| > 0);
  }

  /** The profit factor computed from the two gross totals. */
  lemma FactorOfTotals(profit: real, loss: real, hasLosses: bool)
    requires profit >= 0.0
    requires hasLosses ==> loss < 0.0
    ensures !hasLosses ==> GrossFactor(profit, loss, hasLosses) == 0.0
    ensures hasLosses ==> GrossFactor(profit, loss, hasLosses) == profit / -loss
    ensures GrossFactor(profit, loss, hasLosses) >= 0.0
  {
    if hasLosses {
      GrossRatio(profit, loss);
    }
  }

  /** A non-negative gross profit over a negative gross loss. */
  lemma GrossRatio(profit: real, loss: real)
    requires profit >= 0.0 && loss < 0.0
    ensures Abs(profit / loss) == profit / -loss && profit / -loss >= 0.0
  {
    var n := -loss;
    NegatedDivisor(profit, n);
    QuotientAtLeast(profit, n, 0.0);
  }

  /** Without a PnL column, the winning (value > 0) and losing (value <= 0)
      EXIT trades partition the EXIT trades. */
  lemma ExitCountsPartition(rows: seq<Trade>)
    requires |rows| > 0
    ensures var m := TradeMetricsOf(WithoutPnl(rows));
            m.winningTrades + m.losingTrades == m.totalTrades
  {
    SignCounts(ExitValues(rows));
  }

  /** With a PnL column: wins and losses never outnumber the trades, the
      win rate is the percentage of winning trades and lies in [0, 100]. */
  lemma WinRateBounds(rows: seq<PnlRow>)
    requires |rows| > 0
    ensures var m := TradeMetricsOf(WithPnl(rows));
            && m.totalTrades == |rows|
            && m.winningTrades + m.losingTrades <= m.totalTrades
            && m.winRate == WinRate(m.winningTrades, m.totalTrades)
            && 0.0 <= m.winRate <= 100.0
  {
    var pnl := PnlColumn(rows);
    var m := TradeMetricsOf(WithPnl(rows));
    var w := |Positives(pnl)|;
    assert m.totalTrades == |rows| && m.winningTrades == w && m.winRate == WinRate(w, |rows|);
    SignCounts(pnl);
    WinRatePercent(w, |rows|);
  }

  /** A mean of positive entries is positive and at most their maximum. */
  lemma MeanOfPositives(xs: seq<real>)
    requires |xs| > 0 && forall i :: 0 <= i < |xs| ==> xs[i] > 0.0
    ensures 0.0 < Mean(xs) <= MaxOf(xs)
  {
    MeanSign(xs);
    MeanAtMostMax(xs);
  }

  /** With a PnL column: the average win is positive and at most the
      largest win, the average loss negative and at least the largest
      loss (each 0 when there are none); the profit factor is the ratio of
      gross profit to gross loss, never negative, and its guard against a
      zero loss sum only matters when there are no losses. */
  lemma WinLossAverages(rows: seq<PnlRow>)
    requires |rows| > 0
    ensures var m := TradeMetricsOf(WithPnl(rows));
            var wins := Positives(PnlColumn(rows));
            var losses := Negatives(PnlColumn(rows));
            && (m.winningTrades > 0 ==> 0.0 < m.avgWin <= m.largestWin)
            && (m.winningTrades == 0 ==> m.avgWin == 0.0)
            && (m.losingTrades > 0 ==> m.largestLoss <= m.avgLoss < 0.0)
            && (m.losingTrades == 0 ==> m.avgLoss == 0.0 && m.profitFactor == 0.0)
            && m.profitFactor == ProfitFactor(wins, losses)
            && m.profitFactor >= 0.0
            && (forall i :: 0 <= i < |rows| ==> m.largestLoss <= rows[i].pnl <= m.largestWin)
            && (exists i :: 0 <= i < |rows| && m.largestWin == rows[i].pnl)
            && (exists i :: 0 <= i < |rows| && m.largestLoss == rows[i].pnl)
  {
    LargestTrades(rows);
    var pnl := PnlColumn(rows);
    var wins := Positives(pnl);
    var losses := Negatives(pnl);
    if |wins| > 0 {
      MeanOfPositives(wins);
      assert MaxOf(wins) in pnl;
    }
    if |losses| > 0 {
      MeanOfNegatives(losses);
      assert MinOf(losses) in pnl;
    }
    var m := TradeMetricsOf(WithPnl(rows));
    assert m.profitFactor == ProfitFactor(wins, losses) && m.losingTrades == |losses|;
    ProfitFactorRatio(wins, losses);
  }

  /** The largest win and the largest loss are the largest and the smallest
      PnL of any trade, each reached by some trade. */
  lemma LargestTrades(rows: seq<PnlRow>)
    requires |rows| > 0
    ensures var m := TradeMetricsOf(WithPnl(rows));
            && (forall i :: 0 <= i < |rows| ==> m.largestLoss <= rows[i].pnl <= m.largestWin)
            && (exists i :: 0 <= i < |rows| && m.largestWin == rows[i].pnl)
            && (exists i :: 0 <= i < |rows| && m.largestLoss == rows[i].pnl)
  {
    var pnl := PnlColumn(rows);
    var m := TradeMetricsOf(WithPnl(rows));
    assert m.largestWin == MaxOf(pnl) && m.largestLoss == MinOf(pnl);
    var hi :| 0 <= hi < |pnl| && MaxOf(pnl) == pnl[hi];
    var lo :| 0 <= lo < |pnl| && MinOf(pnl) == pnl[lo];
    assert m.largestWin == rows[hi].pnl && m.largestLoss == rows[lo].pnl;
  }

  // ---------------------------------------------------------------------
  // Exposure metrics
  // ---------------------------------------------------------------------

  /** `Portfolio_Value / Portfolio_Value[0] - 1`. */
  function Exposure(v: seq<real>): (e: seq<real>)
    requires |v| > 0 && v[0] != 0.0
    ensures |e| == |v| && e[0] == 0.0
  {
    var e := seq(|v|, t requires 0 <= t < |v| => v[t] / v[0] - 1.0);
    assert v[0] / v[0] == 1.0;
    e
  }

  /** `calculate_exposure_metrics`: mean, maximum and last of the exposure
      series, times 100; raises on an empty table; NaN or infinite
      throughout when the first value is 0. */
  function ExposureMetricsOf(v: seq<real>): (r: Result<ExposureMetrics>)
    ensures r.Err? <==> |v| == 0
    ensures r.Ok? && v[0] == 0.0 ==> r.value == ExposureMetrics(None, None, None)
  {
    if |v| == 0 then Err("single positional indexer is out-of-bounds")
    else if v[0] == 0.0 then Ok(ExposureMetrics(None, None, None))
    else
      var e := Exposure(v);
      Ok(ExposureMetrics(Some(Mean(e) * 100.0), Some(MaxOf(e) * 100.0), Some(e[|e| - 1] * 100.0)))
  }

  /** The "exposure" series is the return since the first row, so the
      current exposure is the total return; the average never exceeds the
      maximum, and the maximum is at least 0 (the first row's exposure). */
  lemma ExposureIsReturn(v: seq<real>)
    requires |v| > 0
    ensures ExposureMetricsOf(v).value.currentExposure == TotalReturn(v).value
    ensures v[0] != 0.0 ==>
              var m := ExposureMetricsOf(v).value;
              m.averageExposure.value <= m.maxExposure.value && 0.0 <= m.maxExposure.value
  {
    if v[0] != 0.0 {
      var e := Exposure(v);
      MeanAtMostMax(e);
      assert e[0] <= MaxOf(e);
    }
  }

  // ---------------------------------------------------------------------
  // The class
  /** All four sub-dictionaries of a non-empty snapshot table. */
  function AllMetricsOf(v: seq<real>, trades: TradesTable, annualized: Option<real>,
                        volatility: Option<real>): (m: Metrics)
    requires |v| > 0
    ensures m.returnMetrics.Some? && m.drawdownMetrics.Some? && m.tradeMetrics.Some? && m.exposureMetrics.Some?
    ensures m.exposureMetrics.value.currentExposure == m.returnMetrics.value.totalReturn
  {
    ExposureIsReturn(v);
    Metrics(Some(ReturnMetricsOf(v, annualized, volatility).value),
            Some(DrawdownMetricsOf(v)),
            Some(TradeMetricsOf(trades)),
            Some(ExposureMetricsOf(v).value))
  }

  // ---------------------------------------------------------------------

  class PerformanceAnalyzer {
    const positions: seq<Snapshot>
    const trades: TradesTable
    const pnlSummary: PnlSummary
    /** The annualized return and volatility of the snapshot table, as
        floating point computes them. */
    const annualizedReturn: Option<real>
    const volatility: Option<real>
    var metrics: Metrics

    /** `__init__`: the attributes, an empty metrics record, then
        `calculate_all_metrics`. On an empty snapshot table that call raises
        and the record stays empty. */
    constructor (positions: seq<Snapshot>, trades: TradesTable, pnlSummary: PnlSummary,
                 annualizedReturn: Option<real>, volatility: Option<real>)
      ensures this.positions == positions && this.trades == trades && this.pnlSummary == pnlSummary
      ensures this.annualizedReturn == annualizedReturn && this.volatility == volatility
      ensures |positions| == 0 ==> metrics == NoMetrics
      ensures |positions| > 0 ==> metrics == AllMetricsOf(Values(positions), trades, annualizedReturn, volatility)
    {
      this.positions := positions;
      this.trades := trades;
      this.pnlSummary := pnlSummary;
      this.annualizedReturn := annualizedReturn;
      this.volatility := volatility;
      metrics := NoMetrics;
      new;
      var _ := CalculateAllMetrics();
    }

    /** `calculate_return_metrics`; raises on an empty table. */
    method CalculateReturnMetrics() returns (r: Result<ReturnMetrics>)
      modifies this
      ensures r == ReturnMetricsOf(Values(positions), annualizedReturn, volatility)
      ensures r.Ok? ==> metrics == old(metrics).(returnMetrics := Some(r.value))
      ensures r.Err? ==> metrics == old(metrics)
    {
      var portfolioValue := Values(positions);
      if |portfolioValue| == 0 {
        return Err("single positional indexer is out-of-bounds");
      }
      var initialValue := portfolioValue[0];
      var finalValue := portfolioValue[|portfolioValue| - 1];
      var totalReturn := if initialValue == 0.0 then None else Some((finalValue / initialValue - 1.0) * 100.0);
      var m := ReturnMetrics(totalReturn, annualizedReturn, volatility, SharpeRatio(annualizedReturn, volatility));
      metrics := metrics.(returnMetrics := Some(m));
      r := Ok(m);
    }

    /** `calculate_drawdown_metrics`. */
    method CalculateDrawdownMetrics()
      modifies this
      ensures metrics == old(metrics).(drawdownMetrics := Some(DrawdownMetricsOf(Values(positions))))
    {
      metrics := metrics.(drawdownMetrics := Some(DrawdownMetricsOf(Values(positions))));
    }

    /** `calculate_trade_metrics`. */
    method CalculateTradeMetrics()
      modifies this
      ensures metrics == old(metrics).(tradeMetrics := Some(TradeMetricsOf(trades)))
    {
      metrics := metrics.(tradeMetrics := Some(TradeMetricsOf(trades)));
    }

    /** `calculate_exposure_metrics`; raises on an empty table. */
    method CalculateExposureMetrics() returns (r: Result<ExposureMetrics>)
      modifies this
      ensures r == ExposureMetricsOf(Values(positions))
      ensures r.Ok? ==> metrics == old(metrics).(exposureMetrics := Some(r.value))
      ensures r.Err? ==> metrics == old(metrics)
    {
      r := ExposureMetricsOf(Values(positions));
      if r.Ok? {
        metrics := metrics.(exposureMetrics := Some(r.value));
      }
    }

    /** `calculate_all_metrics`: the return metrics come first, so an empty
        snapshot table raises before anything is stored; otherwise all four
        sub-dictionaries are filled. */
    method CalculateAllMetrics() returns (r: Result<Metrics>)
      modifies this
      ensures r.Err? <==> |positions| == 0
      ensures r.Err? ==> metrics == old(metrics)
      ensures r.Ok? ==> metrics == r.value == AllMetricsOf(Values(positions), trades, annualizedReturn, volatility)
    {
      var returnMetrics := CalculateReturnMetrics();
      if returnMetrics.Err? {
        return Err(returnMetrics.message);
      }
      CalculateDrawdownMetrics();
      CalculateTradeMetrics();
      var exposure := CalculateExposureMetrics();
      r := Ok(metrics);
    }
  }
}
