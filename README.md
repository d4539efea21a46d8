# Buying-the-dip backtester, modelled in Dafny

This project models the core of a backtester for a staged "buy the dip"
strategy on a leveraged ETF (SPXL). The pipeline has five steps:

1. **Data processing** (`data_processor.dfy`, module `DataProcessing`). The
   price frame is checked for the Open, High, Low and Close columns. It gains
   two columns:
   - `LocalHigh`, the 20-bar rolling maximum of High;
   - `DrawdownPct`, the distance of Close below that high in percent,
     rounded to two decimals.
2. **Signal generation** (`signal_generator.dfy`, module `SignalGeneration`).
   - Five entry flags fire when `DrawdownPct` is at or below -15, -25, -32,
     -42 and -52.
   - The exit flag fires when Close has gained at least 20 % over 20 bars.
3. **Position management** (`position_manager.dfy`, module `Positions`). A
   cash account holds five entry stages. Each stage is bought with a fixed
   fraction of the initial capital (20/15/20/20/15 %).
   - An entry is refused above 90 % exposure, where exposure values the
     position at entry prices.
   - All stages are sold on an exit signal, but only once the price is 20 %
     above the share-weighted average entry price.
   - 10 % of the shares are sold in proportion to each stage when exposure
     is above 75 % and the price is at or above the average entry.
   - Each bar logs the trades and records a snapshot.
4. **Portfolio tracking** (`portfolio_tracker.dfy`, module
   `PortfolioTracking`).
   - Each sale is matched with the open entry of its stage to give a PnL.
   - Daily returns, cumulative returns and drawdowns are derived from the
     snapshot column `Portfolio_Value`.
   - Realized and unrealized PnL are split.
5. **Performance analysis** (`performance_analyzer.dfy`, module
   `PerformanceAnalysis`). It computes the total return, the Sharpe ratio
   with its zero-volatility guard, drawdown extremes, the win/loss counts,
   the averages and the profit factor, and an "exposure" series. That series
   is the portfolio value relative to its first value.

`types.dfy` (module `Types`) holds shared helpers:
- `Option` and `Result`;
- sums, minima, maxima and means of real sequences, with their bounds.

## How the model is organised

Each stateful Python class is a Dafny `class` with the same fields. Its
methods are proved to compute a specification function over a value of the
state. For example, `PositionManager.State()` is an `Account` and
`EnterPosition` ensures `(State(), ok) == Enter(old(State()), …)`. Lemmas
about those functions then state what the strategy promises.

Three main invariants connect the pieces:
- `Positions.Inv`:
  - cash is not negative;
  - entry prices are not negative;
  - the cost basis is at most 90 % of the initial capital.
- `Positions.Solvent`: the account holds some cash or some shares.
- `Positions.Extends`: after any number of bars, the snapshot log grows by
  one sound snapshot per bar, and the trade log only grows.

Python floating point is modelled by exact reals:
- a NaN or infinite value is `None` (aggregations then skip it, which is
  right for NaN but not for infinity; see "## Left out");
- a raised exception is `Result.Err`.

## Behaviour of the code worth noting

- Signals carry no state from bar to bar: every entry flag is a plain
  threshold on that bar's drawdown.
- The average entry price is weighted by shares (position_manager.py:83-91).
  It is not the mean of the stage prices.
- Exposure values the held shares at their entry prices
  (position_manager.py:93-98), not at the current price.
- `Total_PnL` is the last portfolio value minus the first snapshot's value
  (portfolio_tracker.py:78-80). `Positions.FirstSnapshotIsCapital` shows that
  the first snapshot already reflects bar 0's trades. `TotalPnlFromCapital`
  shows that this still equals final value minus initial capital, since
  trading at a price does not change the worth at that price.

## Model

| member | source | states |
|---|---|---|
| DataProcessing.WindowMax | data_processor.py:63 | a window's maximum is defined exactly when every value in it is defined; it bounds every value and is one of them |
| DataProcessing.LocalHighAt | data_processor.py:63 | `LocalHigh` at bar t is defined iff bar t is at least the 20th bar and High is defined on all 20 bars ending at t; then it is the largest of those Highs and equals one of them |
| DataProcessing.RoundHalfEven | data_processor.py:69 | the rounded integer is within one half of its argument, and an exact tie goes to the even neighbour |
| DataProcessing.RoundHalfEvenMonotone | data_processor.py:69 | rounding is monotone |
| DataProcessing.Round2 | data_processor.py:69 | the result has at most two decimals (100 times it is a whole number) and lies within 0.005 of its argument |
| DataProcessing.Round2NonPositive | data_processor.py:69 | rounding keeps a non-positive value non-positive |
| DataProcessing.WithSignalColumns | data_processor.py:62-69 | the result keeps the index and every other column, and adds exactly `LocalHigh`, the rolling 20-bar maximum of High, and `DrawdownPct`, computed row by row from Close and that `LocalHigh` |
| DataProcessing.DrawdownAtRow | data_processor.py:66-69 | `DrawdownPct` is defined iff Close and LocalHigh are defined and LocalHigh is not zero; it is then (Close − LocalHigh) / LocalHigh · 100 rounded to two decimals, a whole number of hundredths within 0.005 of the exact value |
| DataProcessing.DrawdownNonPositive | data_processor.py:63-69 | when Close is at most High at a bar with a positive local high, the drawdown there is defined and not positive |
| DataProcessing.SPXLDataProcessor.constructor | data_processor.py:11-51 | the processor holds the loaded frame |
| DataProcessing.SPXLDataProcessor.CalculateSignals | data_processor.py:53-71 | fails iff a price column is missing, with the message naming the first missing column and the frame untouched; otherwise the frame gains exactly the two signal columns and is returned |
| SignalGeneration.LastDefinedIsLatest | signal_generator.py:20 | the padding value is None iff nothing before is defined; otherwise it is the latest defined value |
| SignalGeneration.ForwardFill | signal_generator.py:20 | padding keeps the length and every defined value |
| SignalGeneration.ForwardFillAt | signal_generator.py:20 | a padded entry is None iff no value up to it is defined; otherwise it is the latest defined value up to it |
| SignalGeneration.GenerateSignals | signal_generator.py:9-22 | one signal row per bar of the frame's index, with its date and five entry flags |
| SignalGeneration.EntryAt | signal_generator.py:13-17 | `Entry{k+1}` holds iff the bar's drawdown is defined and at most the k-th threshold; an undefined drawdown fires no entry |
| SignalGeneration.EntriesNested | signal_generator.py:13-17 | a deeper entry flag implies every shallower one |
| SignalGeneration.ExitAt | signal_generator.py:20 | with positive closes, `Exit` holds iff the bar is at least the 20th after the first and Close is at least 1.2 times Close 20 bars earlier |
| SignalGeneration.GainIsRatio | signal_generator.py:20 | a percentage change of at least 20 is the same as a price at least 1.2 times the earlier one |
| Positions.PositionSize | position_manager.py:33-35 | the share count is the most whole shares that the stage's fraction of initial capital buys |
| Positions.WeightsSumToCap | position_manager.py:17-23 | the five stage weights add up to the 0.90 exposure cap |
| Positions.AverageEntryBetween | position_manager.py:83-91 | the share-weighted average entry lies between the lowest and highest entry price of the held stages |
| Positions.ExposedHasShares | position_manager.py:93-98 | a positive exposure implies some shares are held |
| Positions.InvBoundsExposure | position_manager.py:93-98 | under the invariant, exposure lies in [0, 0.90] |
| Positions.EnterEffect | position_manager.py:37-61 | an entry succeeds iff exposure plus the stage weight is at most 0.90 and the cost fits in cash; a refusal changes nothing; a success debits the cost, sets the stage's shares and entry price, logs one ENTER trade, and keeps the invariant and the other stages |
| Positions.EnterKeepsInv | position_manager.py:37-61 | entering keeps the account invariant |
| Positions.EnterFlatKeepsWorth | position_manager.py:37-61 | entering an empty stage keeps the worth at the trade price, and solvency |
| Positions.ExitEffect | position_manager.py:63-81 | exiting empties the stage, clears its entry price, credits shares·price, logs one EXIT trade with negative shares, and keeps the invariant, the worth and solvency |
| Positions.ExitKeepsWorth | position_manager.py:63-81 | an exit keeps cash + shares·price and solvency |
| Positions.ExitTouchesStage | position_manager.py:63-81 | an exit changes only its own stage and appends exactly one EXIT trade for it |
| Positions.ExitAllKeeps | position_manager.py:150-152 | the exit loop keeps the invariant, the worth and solvency, and only appends trades |
| Positions.ExitAllStages | position_manager.py:150-152 | after the exit loop every stage is empty, and only the held stages have their entry price cleared |
| Positions.ExitAllLog | position_manager.py:150-152 | the exit loop logs one EXIT trade per held stage, in stage order, each selling that stage's whole holding at the bar's price |
| Positions.ExitStepFlattens | position_manager.py:147-152 | when the gate passes (Exit signal, shares held, price at least 1.2 × average entry), every stage is flat afterwards |
| Positions.ExitStepKeeps | position_manager.py:147-152 | the gated exit keeps the invariant, solvency and the worth, and only appends trades |
| Positions.ReductionFor | position_manager.py:107-109 | a stage's cut never exceeds what the stage holds |
| Positions.ReductionFloor | position_manager.py:107-109 | a stage's cut r is the floor of held·to_sell/total: r·total ≤ held·to_sell < (r + 1)·total |
| Positions.ReductionProportional | position_manager.py:107-109 | a stage's cut is at most its share of the total times the shares to sell |
| Positions.ReductionKeepsStage | position_manager.py:103-109 | a 10 % reduction never empties a held stage |
| Positions.SharesToSell | position_manager.py:103 | the shares to sell are the whole part of 10 % of the total: n ≤ 0.10·total < n + 1, and n ≤ total |
| Positions.Cuts | position_manager.py:105-109 | the cut for each stage is at most its holding, and an empty stage is not cut |
| Positions.CutsFloor | position_manager.py:105-109 | each held stage's cut c is the floor of its pro-rata part: c·total ≤ held·to_sell < (c + 1)·total |
| Positions.CutBound | position_manager.py:105-109 | one stage's cut is at most its holding times to_sell/total |
| Positions.CutsAtLeast | position_manager.py:103-109 | the cuts fall short of to_sell by less than one share per held stage: cuts + held stages > to_sell |
| Positions.CutsBound | position_manager.py:105-109 | all cuts together are at most the total times the fraction to sell |
| Positions.CutsTotal | position_manager.py:103-109 | all cuts together are at most the shares to sell |
| Positions.CutsSell | position_manager.py:103-109 | with the 10 % amount, the cuts total at most `shares_to_sell`, each held stage keeps a share, and empty stages are not cut |
| Positions.CutStageKeeps | position_manager.py:110-122 | selling a cut from one stage keeps the invariant, the entry prices, the worth and the snapshots, and only appends trades |
| Positions.CutTouchesStage | position_manager.py:110-122 | a cut changes only its own stage's shares and appends exactly one REDUCE trade selling the cut at the current price |
| Positions.ReduceFromKeeps | position_manager.py:105-122 | the reduction loop keeps the invariant, the entry prices, the worth and the snapshots |
| Positions.ReduceFromStages | position_manager.py:105-122 | after the reduction loop each held stage holds its old shares less its cut, and every other stage is unchanged |
| Positions.ReduceFromLog | position_manager.py:105-122 | the reduction loop logs one REDUCE trade per held stage, in stage order, selling that stage's cut at the current price |
| Positions.ReduceKeeps | position_manager.py:100-122 | a reduction keeps the invariant, the entry prices, the worth and solvency |
| Positions.ReduceSells | position_manager.py:100-122 | at exposure 0.75 or below nothing changes; otherwise at most 10 % of the shares are sold, each held stage keeps at least one share, empty stages stay empty, one sale is logged per held stage, and the shares sold plus the number of held stages exceed `shares_to_sell` |
| Positions.ReduceStepKeeps | position_manager.py:155-158 | the break-even check keeps the invariant, solvency and the worth |
| Positions.EnterFromKeeps | position_manager.py:161-164 | the entry loop keeps the invariant, the worth and solvency, and only appends trades |
| Positions.EnterFromStages | position_manager.py:161-164 | the entry loop changes only signalled stages that held nothing, and logs only ENTER trades for such stages at the bar's price |
| Positions.EnterTouchesStage | position_manager.py:37-61 | an entry changes only its own stage and logs only ENTER trades for it |
| Positions.RecordSound | position_manager.py:124-138 | recording appends exactly one snapshot; its portfolio value is cash plus shares at the price, with cash not negative, exposure in [0, 0.90] and a positive value |
| Positions.BarEffect | position_manager.py:142-167 | one bar keeps the invariant and solvency, only appends trades, and appends exactly one sound snapshot dated at the bar, whose value is the account's worth before the bar at the bar's close |
| Positions.BarExtends | position_manager.py:142-167 | one bar extends the account by one snapshot for that bar |
| Positions.ExtendsTrans | position_manager.py:142-167 | continuing for m bars and then n more is continuing for m + n bars |
| Positions.BacktestEffect | position_manager.py:140-173 | the backtest from bar t appends one sound snapshot per remaining bar, with that bar's date and close, and keeps the invariant and solvency |
| Positions.BacktestPrefix | position_manager.py:140-173 | the backtest keeps the earlier snapshots and adds exactly one per remaining bar |
| Positions.FirstSnapshotIsCapital | position_manager.py:140-173 | a backtest from the initial account has one snapshot per bar, and the first is valued at the initial capital |
| Positions.InitialSound | position_manager.py:6-31 | the initial account satisfies the invariant, is solvent, has no snapshots and is worth the initial capital at any price |
| Positions.PositionManager.constructor | position_manager.py:6-31 | the manager starts with the initial capital (100000 by default) in cash, five empty stages and empty logs |
| Positions.PositionManager.EnterPosition | position_manager.py:37-61 | the new state and the success flag are exactly `Enter` of the old state |
| Positions.PositionManager.ExitPosition | position_manager.py:63-81 | the new state is `Exit` of the old state, and success is reported |
| Positions.PositionManager.ReducePosition | position_manager.py:100-122 | the new state is `Reduce` of the old state, and the invariant is kept |
| Positions.PositionManager.RecordDailyPosition | position_manager.py:124-138 | the new state is `Record` of the old state |
| Positions.PositionManager.RunBacktest | position_manager.py:140-173 | the final state is `Backtest` from the start state over every bar, and the returned tables are the trade and snapshot logs |
| PortfolioTracking.OpenAfterTrade | portfolio_tracker.py:25-49 | an ENTER opens its stage at the trade's shares, price and absolute value; an EXIT or REDUCE of an open stage removes it exactly when entry shares plus trade shares are ≤ 0, and otherwise keeps that sum at the same entry price and cost; a trade of a stage that is not open changes nothing; every other stage is untouched |
| PortfolioTracking.TradePnl | portfolio_tracker.py:11-51 | one PnL row per trade, carrying that trade |
| PortfolioTracking.TradePnlAt | portfolio_tracker.py:26-42 | an ENTER row has PnL 0; an EXIT or REDUCE row of a stage with an open entry has PnL (price − entry price)·|shares| and the percentage change; an unmatched sale has PnL 0 |
| PortfolioTracking.PnlIsProceedsLessCost | portfolio_tracker.py:34-42 | a matched sale's PnL is its proceeds less the entry cost of the shares sold |
| PortfolioTracking.OpenOnlyEntered | portfolio_tracker.py:26-49 | an open entry for a stage comes from that stage's latest ENTER trade, with its price |
| PortfolioTracking.OpenSharesPositive | portfolio_tracker.py:44-49 | when every entry buys shares, every open entry holds a positive count |
| PortfolioTracking.RoundTrip | portfolio_tracker.py:26-49 | entering n shares at p and exiting them at q gives PnL (q − p)·n and closes the stage |
| PortfolioTracking.RunningMax | portfolio_tracker.py:64 | the expanding maximum bounds every value so far and is one of them |
| PortfolioTracking.RunningMaxMonotone | portfolio_tracker.py:64 | the expanding maximum never decreases |
| PortfolioTracking.DrawdownSign | portfolio_tracker.py:64-67 | with a positive running maximum, the drawdown is defined, not positive, and zero exactly at a new high |
| PortfolioTracking.MetricsOf | portfolio_tracker.py:53-69 | the three derived columns have one entry per snapshot |
| PortfolioTracking.GrowthTelescopes | portfolio_tracker.py:59-61 | with positive values, the product of (1 + daily return) up to bar t is value[t] / value[0] |
| PortfolioTracking.CumulativeReturnIsTotal | portfolio_tracker.py:56-61 | the first daily and cumulative returns are undefined; afterwards the daily return is v[t]/v[t−1] − 1 and the cumulative return is v[t]/v[0] − 1 |
| PortfolioTracking.RealizedUnrealized | portfolio_tracker.py:71-87 | fails iff there are no snapshots; otherwise realized plus unrealized equals total |
| PortfolioTracking.PnlReconciles | portfolio_tracker.py:71-87 | realized PnL is the sum of the PnL column, and realized plus unrealized is last value minus first value |
| PortfolioTracking.TotalPnlFromCapital | portfolio_tracker.py:78-80 | after a backtest, total PnL equals the final portfolio value less the initial capital |
| PortfolioTracking.CurrentState | portfolio_tracker.py:109-124 | None iff there are no snapshots; otherwise the latest snapshot's date, value, cash and exposure, with PnL parts summing to last minus first value |
| PortfolioTracking.PortfolioTracker.constructor | portfolio_tracker.py:6-9 | the tracker holds both tables and no stats yet |
| PortfolioTracking.PortfolioTracker.CalculateTradePnl | portfolio_tracker.py:11-51 | the matching loop returns exactly `TradePnl` of the trade log |
| PortfolioTracking.PortfolioTracker.CalculatePortfolioMetrics | portfolio_tracker.py:51-69 | fails with a KeyError exactly when there are no snapshots, leaving the stored metrics as they were; otherwise stores and returns `MetricsOf` the snapshot table |
| PortfolioTracking.PortfolioTracker.CalculateRealizedUnrealizedPnl | portfolio_tracker.py:71-87 | returns `RealizedUnrealized` of the two tables |
| PortfolioTracking.PortfolioTracker.TrackPortfolio | portfolio_tracker.py:89-107 | fails iff there are no snapshots, and then stores nothing (metrics and stats stay as they were); otherwise it stores the metrics, and stores and returns the PnL rows, the snapshots with their metrics, and the PnL summary |
| PortfolioTracking.PortfolioTracker.GetCurrentPortfolioState | portfolio_tracker.py:109-124 | returns `CurrentState` of the two tables |
| PerformanceAnalysis.Positives | performance_analyzer.py:103 | keeps exactly the positive values |
| PerformanceAnalysis.Negatives | performance_analyzer.py:104 | keeps exactly the negative values |
| PerformanceAnalysis.NonPositives | performance_analyzer.py:94 | keeps exactly the values at most zero |
| PerformanceAnalysis.Defined | performance_analyzer.py:67-68 | keeps exactly the defined values |
| PerformanceAnalysis.PositivesCounts | performance_analyzer.py:103 | every positive value is kept as many times as it occurs, and no other value |
| PerformanceAnalysis.NegativesCounts | performance_analyzer.py:104 | every negative value is kept as many times as it occurs, and no other value |
| PerformanceAnalysis.NonPositivesCounts | performance_analyzer.py:94 | every value at most zero is kept as many times as it occurs, and no other value |
| PerformanceAnalysis.DefinedCounts | performance_analyzer.py:67-68 | every number is kept as many times as it occurs, and the NaN cells are dropped |
| PerformanceAnalysis.SignCounts | performance_analyzer.py:93-109 | winners plus losers are at most all rows, and positives plus non-positives are all rows |
| PerformanceAnalysis.TotalReturn | performance_analyzer.py:40-42 | fails iff there are no snapshots; with a non-zero first value the total return times the first value is (last − first)·100; a zero first value gives None |
| PerformanceAnalysis.SharpeGuard | performance_analyzer.py:57 | zero volatility gives a Sharpe ratio of 0; positive volatility gives the ratio, with the sign of the annualized return |
| PerformanceAnalysis.ReturnMetricsOf | performance_analyzer.py:37-58 | fails iff there are no snapshots; otherwise it carries the total return and the guarded Sharpe ratio |
| PerformanceAnalysis.DrawdownMetricsOf | performance_analyzer.py:60-70 | an empty table gives zeros; otherwise the current drawdown is the last bar's |
| PerformanceAnalysis.DrawdownsDefined | performance_analyzer.py:62-64 | with a positive first value every drawdown is defined and not positive |
| PerformanceAnalysis.DrawdownMetricsSigns | performance_analyzer.py:60-70 | max drawdown ≤ current ≤ 0 and max ≤ average < 0; the max drawdown is the smallest drawdown of any bar and is reached at some bar; the average is the mean of the negative drawdowns; the average is undefined, and the max is 0, exactly when every bar is at its running high |
| PerformanceAnalysis.DrawdownExtremes | performance_analyzer.py:60-66 | every bar's drawdown is defined and at least the max drawdown, some bar's drawdown equals it, and the average drawdown is the mean of the negative drawdowns |
| PerformanceAnalysis.ZeroDrawdownsAtMax | performance_analyzer.py:62-64 | all drawdowns are zero iff every value is at its running maximum |
| PerformanceAnalysis.TradeMetricsOf | performance_analyzer.py:72-117 | an empty table gives all zeros; a table without PnL counts its EXIT rows, with win rate and profit factor 0 |
| PerformanceAnalysis.ExitCountsPartition | performance_analyzer.py:89-101 | without PnL, winning plus losing EXIT rows are all EXIT rows |
| PerformanceAnalysis.WinRatePercent | performance_analyzer.py:110 | the win rate is wins / total · 100, and lies in [0, 100] |
| PerformanceAnalysis.WinRateBounds | performance_analyzer.py:102-110 | with PnL, the total is every row, winners plus losers are at most it, and the win rate is their percentage in [0, 100] |
| PerformanceAnalysis.MeanOfPositives | performance_analyzer.py:111-113 | the mean of positive values is positive and at most their maximum |
| PerformanceAnalysis.WinLossAverages | performance_analyzer.py:111-116 | 0 < average win ≤ largest win when there are winners, else 0; largest loss ≤ average loss < 0 when there are losers, else 0 with profit factor 0; the profit factor is gross profit over gross loss and not negative; largest loss ≤ every trade's PnL ≤ largest win, and both are some trade's PnL |
| PerformanceAnalysis.LargestTrades | performance_analyzer.py:113-114 | the largest win is the largest PnL of any trade and the largest loss the smallest, each reached by some trade |
| PerformanceAnalysis.ProfitFactorRatio | performance_analyzer.py:115-116 | with losers, the profit factor is gross profit / −gross loss; without, it is 0; never negative |
| PerformanceAnalysis.FactorOfTotals | performance_analyzer.py:115-116 | the guarded factor is 0 without losses, and profit / −loss otherwise |
| PerformanceAnalysis.Exposure | performance_analyzer.py:121 | one exposure value per snapshot, starting at 0 |
| PerformanceAnalysis.ExposureMetricsOf | performance_analyzer.py:119-126 | fails iff there are no snapshots; a zero first value leaves all three undefined |
| PerformanceAnalysis.ExposureIsReturn | performance_analyzer.py:119-126 | current exposure equals the total return; average exposure ≤ max exposure, and max exposure ≥ 0 |
| PerformanceAnalysis.AllMetricsOf | performance_analyzer.py:30-35 | all four sub-dictionaries are filled, and the current exposure equals the total return |
| PerformanceAnalysis.PerformanceAnalyzer.constructor | performance_analyzer.py:7-28 | the analyzer holds its inputs and, for a non-empty snapshot table, has computed all four metric records |
| PerformanceAnalysis.PerformanceAnalyzer.CalculateReturnMetrics | performance_analyzer.py:37-58 | returns `ReturnMetricsOf` the value column and stores it only on success |
| PerformanceAnalysis.PerformanceAnalyzer.CalculateDrawdownMetrics | performance_analyzer.py:60-70 | stores `DrawdownMetricsOf` the value column and nothing else |
| PerformanceAnalysis.PerformanceAnalyzer.CalculateTradeMetrics | performance_analyzer.py:72-117 | stores `TradeMetricsOf` the trade table and nothing else |
| PerformanceAnalysis.PerformanceAnalyzer.CalculateExposureMetrics | performance_analyzer.py:119-126 | returns `ExposureMetricsOf` the value column and stores it only on success |
| PerformanceAnalysis.PerformanceAnalyzer.CalculateAllMetrics | performance_analyzer.py:30-35 | fails iff there are no snapshots, leaving metrics untouched; otherwise all four sub-dictionaries are filled |

## Left out

- `load_or_download_data` (data_processor.py:11-51) reads CSV files and
  downloads from the network. The `SPXLDataProcessor` constructor takes the
  loaded frame as a parameter instead.
- `pd.to_numeric(..., errors='coerce')` is not modelled. Cells are already
  numbers or missing (`None`), so the coercion is the identity.
- main.py and view_trades.py are not part of this model. They are scripts
  that wire the classes together and print.
- The CSV writes of `track_portfolio` (portfolio_tracker.py:104-105) are
  file output and are left out.
- `generate_summary_report` (performance_analyzer.py:128-162) only formats
  text and is not part of this model.
- Annualized return and volatility (performance_analyzer.py:44-51) use a
  fractional power, a square root and a sample standard deviation in
  floating point. `PerformanceAnalyzer` takes them as parameters. The Sharpe
  ratio and its zero guard are modelled on top of them.
- The analyzer's conversion of the snapshot index to datetimes
  (performance_analyzer.py:10-13) changes only the index type. Dates are
  opaque values here.
- `current_capital` (position_manager.py:9) is never read or written after
  `__init__`, so it is not a field.
- Floating point: every price, value and ratio is an exact real.
  - `.round(2)` is round-half-even on the exact value, so a float that is
    not an exact tie may round differently.
  - NaN and infinity are both `None`. pandas' `min`, `mean` and `cumprod`
    skip NaN but carry infinity, so the two differ after an infinite cell.
    The two lines below say where this shows.
  - Comparisons such as exposure against 0.90 are exact.
- PortfolioTracking.MetricsOf: a portfolio value of 0 followed by a
  non-zero one gives an infinite `Daily_Return`, which the model holds as
  `None`. `Growth` then treats it as the factor 1, as for NaN, so later
  `Cumulative_Return` cells stay finite. pandas' `cumprod`
  (portfolio_tracker.py:56-61) carries the infinity instead: for values
  [0, 1, 2] the model gives 1.0 at row 2 where pandas gives inf, and for
  [1, 0, 2, 3] it gives -1.0 at row 3 where pandas gives NaN (0 times inf).
  Only a portfolio value of 0 leads here. `Positions.RecordSound`
  shows that every snapshot of a backtest is positive, and for positive
  values `CumulativeReturnIsTotal` gives every cell after the first.
- PerformanceAnalysis.DrawdownMetricsOf: a running maximum of 0 under a
  negative value gives a drawdown of -inf, which the model holds as `None`
  and which `min` and `mean` then skip. In pandas
  (performance_analyzer.py:62-68) -inf is the minimum and makes the mean
  -inf: for values [0, -1, 2, 1] the model gives -50 for both the maximum
  and the average drawdown, where pandas gives -inf. This needs a first
  value of at most 0. For a positive first value, `DrawdownsDefined` shows
  that every drawdown cell is defined, and then the two agree.
- Positions.PositionManager.constructor: every close is taken to be a
  defined positive number. In the source a Close cell can be NaN after
  `pd.to_numeric(..., errors='coerce')` (data_processor.py:58). On such a bar
  no exit, reduction or entry fires, because comparisons with NaN are false
  (position_manager.py:147-164). The snapshot's `Portfolio_Value` is then NaN,
  even with no shares held, and that NaN reaches the tracker and the analyzer.
  The constructor also requires a positive initial capital. With a capital
  of 0 the source raises ZeroDivisionError in `get_total_exposure`
  (position_manager.py:93-98) at the first bar; a negative capital runs in
  the source and is not modelled.
- PerformanceAnalysis.PerformanceAnalyzer.constructor: on an empty snapshot
  table the source's `__init__` raises, through `calculate_all_metrics` and
  the `iloc[0]` of `calculate_return_metrics` (performance_analyzer.py:28,
  40-42), and no analyzer exists. The model has no failing constructor, so
  it yields an analyzer whose metrics record stays empty.
- DataProcessing.DrawdownAt: a local high of 0 gives `None`. In pandas the
  division gives -inf for a negative close (and NaN for a zero close), and
  -inf passes every entry threshold. A local high of 0 needs a High of 0
  over the whole window, which positive prices rule out.
- PortfolioTracking.PctChange: an entry price of 0 gives `None`. The source
  divides numpy floats taken from a trade row, which gives infinity or NaN
  (with a runtime warning) rather than raising. Positive prices rule this
  case out.
- Positions.ReductionFor: the cut is the floor of held·to_sell/total on exact
  numbers. The source computes `int((held / total) * to_sell)` in floating
  point, which can land one below.
- Positions.Trade: the `Type` string (`ENTER_Entry1` …) is a kind plus a
  stage number. The tracker's `split('_')[1]` therefore becomes the stage.
  `'ENTER' in type` and `'EXIT' in type` become tests of the kind.
- Some methods only name a loop body or a branch of the source: the
  `PositionManager` methods `CheckExits`, `ExitEveryStage`, `CheckReduction`,
  `CheckEntries`, `ProcessBar` and `SellCut`, and the `PortfolioTracker`
  method `MatchTrade`. They have no Python counterpart of their own.
- DataFrame mechanics are not modelled: indexes, `.loc`, copying, and the
  aliasing of `positions_df` between the tracker and the analyzer. Frames are
  maps from column name to a sequence, and tables are sequences of records.
- PortfolioTracking.PortfolioTracker.CalculatePortfolioMetrics: the source
  adds the three columns to `positions_df` in place. The model keeps them in
  a separate `metrics` field, and the snapshot table stays as it was.
