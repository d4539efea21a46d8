/** `PortfolioTracker`: per-trade PnL by matching each EXIT or REDUCE to
    the open entry of its stage, the return and drawdown columns of the
    snapshot table, and the realized / unrealized / total PnL split. */
module PortfolioTracking {
  import opened Types
  import opened Positions
  import opened SignalGeneration

  /** One row of the table `calculate_trade_pnl` returns: the trade with its
      `PnL` and `PnL_Pct` cells. A `PnL_Pct` that floating point makes
      infinite or NaN (an entry price of 0) is None. */
  datatype PnlRow = PnlRow(trade: Trade, pnl: real, pnlPct: Option<real>)

  /** An entry of `current_position`: the shares still open, the entry
      price and the entry cost. */
  datatype OpenEntry = OpenEntry(shares: int, price: real, cost: real)

  /** The three PnL figures of `calculate_realized_unrealized_pnl`. */
  datatype PnlSummary = PnlSummary(realized: real, unrealized: real, total: real)

  /** The columns `calculate_portfolio_metrics` adds to the snapshot table. */
  datatype PortfolioMetrics = PortfolioMetrics(dailyReturn: seq<Option<real>>,
                                               cumulativeReturn: seq<Option<real>>,
                                               drawdown: seq<Option<real>>)

  /** What `get_current_portfolio_state` returns for a non-empty table. */
  datatype PortfolioState = PortfolioState(date: Date, portfolioValue: real, cash: real, exposure: real,
                                           realizedPnl: real, unrealizedPnl: real, totalPnl: real)

  /** What `track_portfolio` stores in `portfolio_stats`. */
  datatype PortfolioStats = PortfolioStats(trades: seq<PnlRow>, positions: seq<Snapshot>,
                                           metrics: PortfolioMetrics, pnlSummary: PnlSummary)

  function Abs(x: real): real
  {
    if x < 0.0 then -x else x
  }

  function AbsInt(n: int): nat
  {
    if n < 0 then -n else n
  }

  // ---------------------------------------------------------------------
  // Trade PnL
  // ---------------------------------------------------------------------

  /** `current_position` after one more trade: an ENTER (re)opens its
      stage; an EXIT or REDUCE of an open stage leaves `entry shares +
      trade shares` open, or closes the stage when that is not positive; an
      EXIT or REDUCE of a stage that is not open changes nothing. */
  function Track(open: map<nat, OpenEntry>, t: Trade): map<nat, OpenEntry>
  {
    if t.kind == EnterKind then open[t.stage := OpenEntry(t.shares, t.price, Abs(t.value))]
    else if t.stage in open then
      var remaining := open[t.stage].shares + t.shares;
      if remaining <= 0 then open - {t.stage}
      else open[t.stage := open[t.stage].(shares := remaining)]
    else open
  }

  /** `current_position` after a prefix of the trade log. */
  function OpenAfter(trades: seq<Trade>): map<nat, OpenEntry>
  {
    if trades == [] then map[] else Track(OpenAfter(trades[..|trades| - 1]), trades[|trades| - 1])
  }

  lemma OpenAfterStep(trades: seq<Trade>, i: nat)
    requires i < |trades|
    ensures OpenAfter(trades[..i + 1]) == Track(OpenAfter(trades[..i]), trades[i])
  {
    assert trades[..i + 1][..i] == trades[..i];
  }

  /** The rule for the open-entry table at trade i: an ENTER records the
      stage at the trade's shares, price and absolute value; an EXIT or
      REDUCE of an open stage closes it exactly when the entry's shares plus
      the trade's (negative) shares are at most 0, and otherwise keeps that
      sum at the same entry price and cost; a trade of a stage that is not
      open changes nothing. Every other stage is left as it was. */
  lemma OpenAfterTrade(trades: seq<Trade>, i: nat)
    requires i < |trades|
    ensures var before := OpenAfter(trades[..i]);
            var after := OpenAfter(trades[..i + 1]);
            var t := trades[i];
            && (forall k :: k != t.stage ==> (k in after <==> k in before))
            && (forall k :: k != t.stage && k in before ==> after[k] == before[k])
            && (t.kind == EnterKind ==>
                  t.stage in after && after[t.stage] == OpenEntry(t.shares, t.price, Abs(t.value)))
            && (t.kind != EnterKind && t.stage in before ==>
                  (t.stage !in after <==> before[t.stage].shares + t.shares <= 0) &&
                  (t.stage in after ==>
                     after[t.stage] == OpenEntry(before[t.stage].shares + t.shares,
                                                 before[t.stage].price, before[t.stage].cost)))
            && (t.kind != EnterKind && t.stage !in before ==> after == before)
  {
    OpenAfterStep(trades, i);
  }

  /** `(price / entry_price - 1) * 100`; None where floating point gives
      infinity or NaN. */
  function PctChange(price: real, entryPrice: real): Option<real>
  {
    if entryPrice == 0.0 then None else Some((price / entryPrice - 1.0) * 100.0)
  }

  /** The row of one trade, given the open positions before it. */
  function RowFor(open: map<nat, OpenEntry>, t: Trade): PnlRow
  {
    if t.kind != EnterKind && t.stage in open then
      var e := open[t.stage];
      PnlRow(t, (t.price - e.price) * AbsInt(t.shares) as real, PctChange(t.price, e.price))
    else PnlRow(t, 0.0, Some(0.0))
  }

  /** The table `calculate_trade_pnl` returns: one row per trade, in order. */
  function TradePnl(trades: seq<Trade>): (r: seq<PnlRow>)
    ensures |r| == |trades|
    ensures forall i :: 0 <= i < |trades| ==> r[i].trade == trades[i]
  {
    seq(|trades|, i requires 0 <= i < |trades| => RowFor(OpenAfter(trades[..i]), trades[i]))
  }

  /** The PnL column. */
  function PnlColumn(rows: seq<PnlRow>): (r: seq<real>)
    ensures |r| == |rows| && forall i :: 0 <= i < |rows| ==> r[i] == rows[i].pnl
  {
    seq(|rows|, i requires 0 <= i < |rows| => rows[i].pnl)
  }

  /** ENTER rows keep PnL and PnL_Pct at 0; an EXIT or REDUCE row whose stage
      is open gets `(price - entry price) * |shares|` and the percentage
      change from the entry price; one whose stage is not open keeps 0. */
  lemma TradePnlAt(trades: seq<Trade>, i: nat)
    requires i < |trades|
    ensures var row := TradePnl(trades)[i];
            var open := OpenAfter(trades[..i]);
            && (trades[i].kind == EnterKind ==> row.pnl == 0.0 && row.pnlPct == Some(0.0))
            && (trades[i].kind != EnterKind && trades[i].stage in open ==>
                  row.pnl == (trades[i].price - open[trades[i].stage].price) * AbsInt(trades[i].shares) as real &&
                  row.pnlPct == PctChange(trades[i].price, open[trades[i].stage].price))
            && (trades[i].kind != EnterKind && trades[i].stage !in open ==> row.pnl == 0.0 && row.pnlPct == Some(0.0))
  {
    var open := OpenAfter(trades[..i]);
    assert TradePnl(trades)[i] == RowFor(open, trades[i]);
  }

  /** For a sale logged with `value = |shares| * price`, as the position
      manager logs them, the PnL is the proceeds less what the sold shares
      cost at the entry price. */
  lemma PnlIsProceedsLessCost(trades: seq<Trade>, i: nat)
    requires i < |trades| && trades[i].kind != EnterKind && trades[i].stage in OpenAfter(trades[..i])
    requires trades[i].value == AbsInt(trades[i].shares) as real * trades[i].price
    ensures TradePnl(trades)[i].pnl ==
            trades[i].value - AbsInt(trades[i].shares) as real * OpenAfter(trades[..i])[trades[i].stage].price
  {
    var n := AbsInt(trades[i].shares) as real;
    var p := OpenAfter(trades[..i])[trades[i].stage].price;
    TradePnlAt(trades, i);
    Distribute(trades[i].price, p, n);
  }

  lemma Distribute(price: real, entry: real, n: real)
    ensures (price - entry) * n == n * price - n * entry
  {
  }

  /** A stage is open only after some ENTER of that stage, and its entry
      price is the price of the latest ENTER of that stage. */
  lemma {:induction false} OpenOnlyEntered(trades: seq<Trade>, k: nat)
    requires k in OpenAfter(trades)
    ensures exists i :: 0 <= i < |trades| && trades[i].kind == EnterKind && trades[i].stage == k &&
                        OpenAfter(trades)[k].price == trades[i].price &&
                        forall j :: i < j < |trades| ==> trades[j].kind != EnterKind || trades[j].stage != k
  {
    var n := |trades|;
    var init := trades[..n - 1];
    var t := trades[n - 1];
    assert forall j :: 0 <= j < n - 1 ==> init[j] == trades[j];
    if t.kind == EnterKind && t.stage == k {
      assert trades[n - 1].price == OpenAfter(trades)[k].price;
    } else {
      assert k in OpenAfter(init) && OpenAfter(trades)[k].price == OpenAfter(init)[k].price;
      OpenOnlyEntered(init, k);
      var i :| 0 <= i < |init| && init[i].kind == EnterKind && init[i].stage == k &&
               OpenAfter(init)[k].price == init[i].price &&
               forall j :: i < j < |init| ==> init[j].kind != EnterKind || init[j].stage != k;
      assert trades[i] == init[i];
    }
  }

  /** While every ENTER buys a positive number of shares, every open stage
      holds a positive number of shares. */
  lemma {:induction false} OpenSharesPositive(trades: seq<Trade>)
    requires forall i :: 0 <= i < |trades| && trades[i].kind == EnterKind ==> trades[i].shares > 0
    ensures forall k :: k in OpenAfter(trades) ==> OpenAfter(trades)[k].shares > 0
  {
    if trades != [] {
      var init := trades[..|trades| - 1];
      assert forall j :: 0 <= j < |init| ==> init[j] == trades[j];
      OpenSharesPositive(init);
    }
  }

  /** One ENTER followed by the EXIT of all its shares: the exit realizes
      `(exit price - entry price) * shares` and the stage is closed again. */
  lemma RoundTrip(k: nat, n: nat, p: real, q: real, d1: Date, d2: Date, c1: real, c2: real)
    requires n > 0
    ensures var trades := [Trade(d1, EnterKind, k, n, p, n as real * p, c1),
                           Trade(d2, ExitKind, k, -(n as int), q, n as real * q, c2)];
            && TradePnl(trades)[1].pnl == (q - p) * n as real
            && TradePnl(trades)[0].pnl == 0.0
            && k !in OpenAfter(trades)
  {
    var enter := Trade(d1, EnterKind, k, n, p, n as real * p, c1);
    var trades := [enter, Trade(d2, ExitKind, k, -(n as int), q, n as real * q, c2)];
    assert trades[..1] == [enter];
    assert [enter][..0] == [];
    assert OpenAfter([enter]) == map[k := OpenEntry(n, p, Abs(n as real * p))] by {
      assert OpenAfter([enter][..0]) == map[];
    }
    assert trades[..|trades| - 1] == [enter];
  }

  // ---------------------------------------------------------------------
  // Return and drawdown columns
  // ---------------------------------------------------------------------

  /** The `Portfolio_Value` column. */
  function Values(positions: seq<Snapshot>): (v: seq<real>)
    ensures |v| == |positions| && forall t :: 0 <= t < |positions| ==> v[t] == positions[t].portfolioValue
  {
    seq(|positions|, t requires 0 <= t < |positions| => positions[t].portfolioValue)
  }

  /** `pct_change()` at row t: undefined in the first row and where the
      previous value is 0 (floating point gives infinity or NaN). */
  function DailyReturn(v: seq<real>, t: nat): Option<real>
    requires t < |v|
  {
    if t == 0 || v[t - 1] == 0.0 then None else Some(v[t] / v[t - 1] - 1.0)
  }

  function DailyReturns(v: seq<real>): (r: seq<Option<real>>)
    ensures |r| == |v|
  {
    seq(|v|, t requires 0 <= t < |v| => DailyReturn(v, t))
  }

  /** `(1 + r).cumprod()` over a prefix: the product of the defined growth
      factors (pandas skips NaN and carries on). */
  function GrowthProduct(r: seq<Option<real>>): real
  {
    if r == [] then 1.0 else GrowthProduct(r[..|r| - 1]) * Growth(r[|r| - 1])
  }

  /** The growth factor `1 + r` of one daily return; 1 for NaN. */
  function Growth(r: Option<real>): real
  {
    if r.Some? then 1.0 + r.value else 1.0
  }

  /** `(1 + Daily_Return).cumprod() - 1` at row t: NaN where the daily
      return is NaN. */
  function CumulativeReturn(r: seq<Option<real>>, t: nat): Option<real>
    requires t < |r|
  {
    if r[t].None? then None else Some(GrowthProduct(r[..t + 1]) - 1.0)
  }

  function CumulativeReturns(r: seq<Option<real>>): (c: seq<Option<real>>)
    ensures |c| == |r|
  {
    seq(|r|, t requires 0 <= t < |r| => CumulativeReturn(r, t))
  }

  /** `expanding().max()` at row t. */
  function RunningMax(v: seq<real>, t: nat): (m: real)
    requires t < |v|
    ensures forall j :: 0 <= j <= t ==> v[j] <= m
    ensures exists j :: 0 <= j <= t && v[j] == m
  {
    var m := MaxOf(v[..t + 1]);
    assert forall j :: 0 <= j <= t ==> v[..t + 1][j] == v[j];
    m
  }

  /** `(value - running max) / running max * 100` at row t; undefined where
      the running max is 0. */
  function DrawdownAt(v: seq<real>, t: nat): Option<real>
    requires t < |v|
  {
    var m := RunningMax(v, t);
    if m == 0.0 then None else Some((v[t] - m) / m * 100.0)
  }

  function Drawdowns(v: seq<real>): (d: seq<Option<real>>)
    ensures |d| == |v|
  {
    seq(|v|, t requires 0 <= t < |v| => DrawdownAt(v, t))
  }

  /** The columns `calculate_portfolio_metrics` adds. */
  function MetricsOf(positions: seq<Snapshot>): (m: PortfolioMetrics)
    ensures |m.dailyReturn| == |m.cumulativeReturn| == |m.drawdown| == |positions|
  {
    var v := Values(positions);
    var r := DailyReturns(v);
    PortfolioMetrics(r, CumulativeReturns(r), Drawdowns(v))
  }

  /** The running maximum never falls. */
  lemma RunningMaxMonotone(v: seq<real>, s: nat, t: nat)
    requires s <= t < |v|
    ensures RunningMax(v, s) <= RunningMax(v, t)
  {
    var j :| 0 <= j <= s && v[j] == RunningMax(v, s);
  }

  /** With a positive running max the drawdown is defined, never positive,
      and 0 exactly where the value is at its running max. */
  lemma DrawdownSign(v: seq<real>, t: nat)
    requires t < |v| && RunningMax(v, t) > 0.0
    ensures DrawdownAt(v, t).Some?
    ensures DrawdownAt(v, t).value <= 0.0
    ensures DrawdownAt(v, t).value == 0.0 <==> v[t] == RunningMax(v, t)
  {
    var m := RunningMax(v, t);
    var q := (v[t] - m) / m;
    assert q * m == v[t] - m;
    if q > 0.0 {
      MulStrict(0.0, q, m);
    }
    if v[t] != m {
      assert q != 0.0;
    }
  }

  /** Positive values make every growth factor of the daily returns
      telescope: the product up to row t is `V[t] / V[0]`. */
  lemma {:induction false} GrowthTelescopes(v: seq<real>, t: nat)
    requires t < |v| && forall j :: 0 <= j < |v| ==> v[j] > 0.0
    ensures GrowthProduct(DailyReturns(v)[..t + 1]) == v[t] / v[0]
  {
    if t == 0 {
      GrowthFirst(v);
    } else {
      GrowthTelescopes(v, t - 1);
      GrowthNext(v, t);
    }
  }

  /** The first row's growth factor is 1 (its return is undefined). */
  lemma GrowthFirst(v: seq<real>)
    requires |v| > 0 && v[0] > 0.0
    ensures GrowthProduct(DailyReturns(v)[..1]) == v[0] / v[0]
  {
    var r := DailyReturns(v);
    assert r[..1][..0] == [];
    assert r[0].None?;
    var a := v[0];
    assert a / a == 1.0;
  }

  /** One more row multiplies the product by `V[t] / V[t-1]`. */
  lemma GrowthNext(v: seq<real>, t: nat)
    requires 0 < t < |v| && v[0] > 0.0 && v[t - 1] > 0.0
    requires GrowthProduct(DailyReturns(v)[..t]) == v[t - 1] / v[0]
    ensures GrowthProduct(DailyReturns(v)[..t + 1]) == v[t] / v[0]
  {
    var r := DailyReturns(v);
    var before, step := v[t - 1] / v[0], v[t] / v[t - 1];
    assert Growth(r[t]) == step by {
      assert r[t] == DailyReturn(v, t);
    }
    GrowthStep(r, t, before, step);
    RatioChain(before, step, v[0], v[t - 1], v[t]);
  }

  lemma GrowthStep(r: seq<Option<real>>, t: nat, before: real, step: real)
    requires t < |r| && GrowthProduct(r[..t]) == before && Growth(r[t]) == step
    ensures GrowthProduct(r[..t + 1]) == before * step
  {
    assert r[..t + 1][..t] == r[..t];
  }

  /** Consecutive ratios chain: (b / a) * (c / b) == c / a. */
  lemma RatioChain(before: real, step: real, a: real, b: real, c: real)
    requires a > 0.0 && b > 0.0 && before == b / a && step == c / b
    ensures before * step == c / a
  {
    assert before * step * a == c by {
      assert before * a == b;
      assert step * b == c;
    }
  }

  /** With positive values, `Cumulative_Return` is undefined in the first
      row and `V[t] / V[0] - 1` in every later row, and `Daily_Return[t]` is
      `V[t] / V[t-1] - 1`. */
  lemma CumulativeReturnIsTotal(v: seq<real>, t: nat)
    requires t < |v| && forall j :: 0 <= j < |v| ==> v[j] > 0.0
    ensures t == 0 ==> DailyReturns(v)[t].None? && CumulativeReturns(DailyReturns(v))[t].None?
    ensures t > 0 ==> DailyReturns(v)[t] == Some(v[t] / v[t - 1] - 1.0)
    ensures t > 0 ==> CumulativeReturns(DailyReturns(v))[t] == Some(v[t] / v[0] - 1.0)
  {
    if t > 0 {
      GrowthTelescopes(v, t);
    }
  }

  // ---------------------------------------------------------------------
  // PnL summary and current state
  // ---------------------------------------------------------------------

  /** `calculate_realized_unrealized_pnl`: realized PnL is the sum of the
      PnL column; total PnL is the last portfolio value less the first;
      unrealized is the rest. An empty snapshot table raises (`iloc[-1]`). */
  function RealizedUnrealized(trades: seq<Trade>, positions: seq<Snapshot>): (r: Result<PnlSummary>)
    ensures r.Err? <==> |positions| == 0
    ensures r.Ok? ==> r.value.realized + r.value.unrealized == r.value.total
  {
    if |positions| == 0 then Err("single positional indexer is out-of-bounds")
    else
      var realized := Sum(PnlColumn(TradePnl(trades)));
      var total := positions[|positions| - 1].portfolioValue - positions[0].portfolioValue;
      Ok(PnlSummary(realized, total - realized, total))
  }

  /** The PnL split reconciles: realized plus unrealized is the change in
      portfolio value from the first snapshot to the last, and the realized
      part is the sum of the per-trade PnL. */
  lemma PnlReconciles(trades: seq<Trade>, positions: seq<Snapshot>)
    requires |positions| > 0
    ensures var s := RealizedUnrealized(trades, positions).value;
            && s.realized == Sum(PnlColumn(TradePnl(trades)))
            && s.realized + s.unrealized == Values(positions)[|positions| - 1] - Values(positions)[0]
  {
  }

  /** For a fresh backtest the total PnL is the final portfolio value less
      the initial capital. */
  lemma TotalPnlFromCapital(capital: real, dates: seq<Date>, closes: seq<real>, signals: seq<SignalRow>)
    requires capital > 0.0 && Aligned(dates, closes, signals) && |closes| > 0
    ensures var a := Backtest(Initial(capital), capital, dates, closes, signals, 0);
            var s := RealizedUnrealized(a.trades, a.daily);
            && s.Ok?
            && s.value.total == a.daily[|a.daily| - 1].portfolioValue - capital
  {
    FirstSnapshotIsCapital(capital, dates, closes, signals);
  }

  /** `get_current_portfolio_state`: None for an empty snapshot table,
      otherwise the last snapshot's fields with the PnL split. */
  function CurrentState(trades: seq<Trade>, positions: seq<Snapshot>): (r: Option<PortfolioState>)
    ensures r.None? <==> |positions| == 0
    ensures r.Some? ==>
              var last := positions[|positions| - 1];
              && r.value.date == last.date && r.value.portfolioValue == last.portfolioValue
              && r.value.cash == last.cash && r.value.exposure == last.exposure
              && r.value.realizedPnl + r.value.unrealizedPnl == r.value.totalPnl
              && r.value.totalPnl == last.portfolioValue - positions[0].portfolioValue
  {
    if |positions| == 0 then None
    else
      var latest := positions[|positions| - 1];
      var pnl := RealizedUnrealized(trades, positions).value;
      Some(PortfolioState(latest.date, latest.portfolioValue, latest.cash, latest.exposure,
                          pnl.realized, pnl.unrealized, pnl.total))
  }

  // ---------------------------------------------------------------------
  // The class
  // ---------------------------------------------------------------------

  class PortfolioTracker {
    const tradesDf: seq<Trade>
    const positionsDf: seq<Snapshot>
    /** The columns `calculate_portfolio_metrics` adds to `positions_df`;
        None until it has run. */
    var metrics: Option<PortfolioMetrics>
    /** `portfolio_stats`; None until `track_portfolio` has run. */
    var portfolioStats: Option<PortfolioStats>

    constructor (tradesDf: seq<Trade>, positionsDf: seq<Snapshot>)
      ensures this.tradesDf == tradesDf && this.positionsDf == positionsDf
      ensures metrics.None? && portfolioStats.None?
    {
      this.tradesDf := tradesDf;
      this.positionsDf := positionsDf;
      metrics := None;
      portfolioStats := None;
    }

    /** `calculate_trade_pnl`: a copy of the trade log with PnL and PnL_Pct
        set to 0, filled in by one chronological scan that keeps the open
        entry of every stage. */
    method CalculateTradePnl() returns (trades: seq<PnlRow>)
      ensures trades == TradePnl(tradesDf)
    {
      ghost var want := TradePnl(tradesDf);
      trades := seq(|tradesDf|, i requires 0 <= i < |tradesDf| => PnlRow(tradesDf[i], 0.0, Some(0.0)));
      var currentPosition: map<nat, OpenEntry> := map[];
      var i := 0;
      while i < |tradesDf|
        invariant 0 <= i <= |tradesDf| && |trades| == |tradesDf|
        invariant currentPosition == OpenAfter(tradesDf[..i])
        invariant forall j :: 0 <= j < i ==> trades[j] == want[j]
        invariant forall j :: i <= j < |tradesDf| ==> trades[j] == PnlRow(tradesDf[j], 0.0, Some(0.0))
      {
        assert want[i] == RowFor(currentPosition, tradesDf[i]);
        OpenAfterStep(tradesDf, i);
        trades, currentPosition := MatchTrade(trades, currentPosition, i, tradesDf[i]);
        i := i + 1;
      }
      assert |trades| == |want|;
    }

    /** One turn of the loop of `calculate_trade_pnl`: an ENTER records the
        stage's entry; an EXIT or REDUCE of an open stage writes the row's
        PnL cells and updates or closes the stage. */
    static method MatchTrade(trades: seq<PnlRow>, currentPosition: map<nat, OpenEntry>, i: nat, trade: Trade)
      returns (trades': seq<PnlRow>, currentPosition': map<nat, OpenEntry>)
      requires i < |trades| && trades[i] == PnlRow(trade, 0.0, Some(0.0))
      ensures trades' == trades[i := RowFor(currentPosition, trade)]
      ensures currentPosition' == Track(currentPosition, trade)
    {
      trades', currentPosition' := trades, currentPosition;
      if trade.kind == EnterKind {
        currentPosition' := currentPosition'[trade.stage := OpenEntry(trade.shares, trade.price, Abs(trade.value))];
        assert trades == trades[i := RowFor(currentPosition, trade)];
      } else if trade.stage in currentPosition' {
        var entryData := currentPosition'[trade.stage];
        var pnl := (trade.price - entryData.price) * AbsInt(trade.shares) as real;
        var pnlPct := PctChange(trade.price, entryData.price);
        trades' := trades'[i := trades'[i].(pnl := pnl, pnlPct := pnlPct)];
        assert trades'[i] == RowFor(currentPosition, trade);
        var remainingShares := entryData.shares + trade.shares;
        if remainingShares <= 0 {
          currentPosition' := currentPosition' - {trade.stage};
        } else {
          currentPosition' := currentPosition'[trade.stage := entryData.(shares := remainingShares)];
        }
      } else {
        assert trades == trades[i := RowFor(currentPosition, trade)];
      }
    }

    /** `calculate_portfolio_metrics`: adds Daily_Return, Cumulative_Return
        and Drawdown to the snapshot table and returns them. A backtest over
        no bars leaves a table without columns, so reading its
        Portfolio_Value column raises a KeyError and nothing is stored. */
    method CalculatePortfolioMetrics() returns (r: Result<PortfolioMetrics>)
      modifies this
      ensures r.Err? <==> |positionsDf| == 0
      ensures r.Ok? ==> metrics == Some(r.value) && r.value == MetricsOf(positionsDf)
      ensures r.Err? ==> metrics == old(metrics)
      ensures portfolioStats == old(portfolioStats)
    {
      if |positionsDf| == 0 {
        return Err("KeyError: 'Portfolio_Value'");
      }
      var values := Values(positionsDf);
      var dailyReturn := DailyReturns(values);
      var m := PortfolioMetrics(dailyReturn, CumulativeReturns(dailyReturn), Drawdowns(values));
      metrics := Some(m);
      r := Ok(m);
    }

    /** `calculate_realized_unrealized_pnl`. */
    method CalculateRealizedUnrealizedPnl() returns (r: Result<PnlSummary>)
      ensures r == RealizedUnrealized(tradesDf, positionsDf)
    {
      var tradesWithPnl := CalculateTradePnl();
      if |positionsDf| == 0 {
        return Err("single positional indexer is out-of-bounds");
      }
      var realizedPnl := Sum(PnlColumn(tradesWithPnl));
      var totalPnl := positionsDf[|positionsDf| - 1].portfolioValue - positionsDf[0].portfolioValue;
      r := Ok(PnlSummary(realizedPnl, totalPnl - realizedPnl, totalPnl));
    }

    /** `track_portfolio` without its two CSV writes: an empty snapshot
        table makes the metrics step raise before anything is stored. */
    method TrackPortfolio() returns (r: Result<PortfolioStats>)
      modifies this
      ensures r.Err? <==> |positionsDf| == 0
      ensures r.Ok? ==> metrics == Some(MetricsOf(positionsDf)) && portfolioStats == Some(r.value) &&
                        r.value == PortfolioStats(TradePnl(tradesDf), positionsDf, MetricsOf(positionsDf),
                                                  RealizedUnrealized(tradesDf, positionsDf).value)
      ensures r.Err? ==> metrics == old(metrics) && portfolioStats == old(portfolioStats)
    {
      var tradesWithPnl := CalculateTradePnl();
      var portfolioMetrics := CalculatePortfolioMetrics();
      if portfolioMetrics.Err? {
        return Err(portfolioMetrics.message);
      }
      var pnlMetrics := CalculateRealizedUnrealizedPnl();
      var stats := PortfolioStats(tradesWithPnl, positionsDf, portfolioMetrics.value, pnlMetrics.value);
      portfolioStats := Some(stats);
      r := Ok(stats);
    }

    /** `get_current_portfolio_state`. */
    method GetCurrentPortfolioState() returns (r: Option<PortfolioState>)
      ensures r == CurrentState(tradesDf, positionsDf)
    {
      if |positionsDf| == 0 {
        return None;
      }
      var latest := positionsDf[|positionsDf| - 1];
      var pnl := CalculateRealizedUnrealizedPnl();
      r := Some(PortfolioState(latest.date, latest.portfolioValue, latest.cash, latest.exposure,
                               pnl.value.realized, pnl.value.unrealized, pnl.value.total));
    }
  }
}
