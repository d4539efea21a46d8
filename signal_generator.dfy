/** `SignalGenerator.generate_signals`: stateless, per-row threshold
    predicates. Five entry levels compare `DrawdownPct` with fixed
    percentages; the exit compares the 20-bar percentage change of Close
    with 20 %. */
module SignalGeneration {
  import opened Types
  import opened DataProcessing

  /** Number of entry levels (`Entry1` .. `Entry5`). */
  const NumEntries: nat := 5

  /** `Entry{k+1}` fires when `DrawdownPct <= EntryThresholds[k]`. */
  const EntryThresholds: seq<real> := [-15.0, -25.0, -32.0, -42.0, -52.0]

  /** `pct_change(20)`: the exit looks 20 bars back. */
  const ExitPeriods: nat := 20

  /** The exit fires when the 20-bar change is at least 20 %. */
  const ExitThresholdPct: real := 20.0

  /** One row of the signal frame: its index, `Entry1` .. `Entry5` (as
      `entries[0]` .. `entries[4]`) and `Exit`. */
  datatype SignalRow = SignalRow(date: Date, entries: seq<bool>, exit: bool)

  /** `DrawdownPct <= threshold`; a comparison with NaN is False. */
  predicate EntrySignal(drawdown: Option<real>, k: nat)
    requires k < NumEntries
  {
    drawdown.Some? && drawdown.value <= EntryThresholds[k]
  }

  /** The last non-NaN cell of a column prefix, NaN if there is none. */
  function LastDefined(xs: seq<Option<real>>): Option<real>
  {
    if |xs| == 0 then None
    else if xs[|xs| - 1].Some? then xs[|xs| - 1]
    else LastDefined(xs[..|xs| - 1])
  }

  /** `LastDefined` is NaN exactly when every cell is, and otherwise it is
      a cell after which every cell is NaN. */
  lemma {:induction false} LastDefinedIsLatest(xs: seq<Option<real>>)
    ensures LastDefined(xs).None? <==> forall i :: 0 <= i < |xs| ==> xs[i].None?
    ensures LastDefined(xs).Some? ==> exists i :: 0 <= i < |xs| && xs[i] == LastDefined(xs) &&
                                                 forall j :: i < j < |xs| ==> xs[j].None?
  {
    if |xs| > 0 && xs[|xs| - 1].None? {
      var init := xs[..|xs| - 1];
      LastDefinedIsLatest(init);
      assert forall i :: 0 <= i < |init| ==> init[i] == xs[i];
      if LastDefined(init).Some? {
        var i :| 0 <= i < |init| && init[i] == LastDefined(init) && forall j :: i < j < |init| ==> init[j].None?;
        assert xs[i] == LastDefined(xs);
      }
    }
  }

  /** The padding pandas' `pct_change` applies first (its default
      `fill_method='pad'`): every NaN takes the last value before it. */
  function ForwardFill(xs: seq<Option<real>>): (r: seq<Option<real>>)
    ensures |r| == |xs|
    ensures forall i :: 0 <= i < |xs| && xs[i].Some? ==> r[i] == xs[i]
  {
    seq(|xs|, i requires 0 <= i < |xs| => LastDefined(xs[..i + 1]))
  }

  /** `(now / before - 1) * 100 >= 20` in floating point: a zero `before`
      gives +inf (true) for a positive `now`, and -inf or NaN (false) otherwise. */
  predicate GainAtLeast(now: real, before: real)
  {
    if before == 0.0 then now > 0.0
    else (now / before - 1.0) * 100.0 >= ExitThresholdPct
  }

  /** `Exit` at row t: false for the first 20 rows (the shifted value is NaN). */
  predicate ExitSignal(filled: seq<Option<real>>, t: nat)
    requires t < |filled|
  {
    t >= ExitPeriods && filled[t].Some? && filled[t - ExitPeriods].Some? &&
    GainAtLeast(filled[t].value, filled[t - ExitPeriods].value)
  }

  /** The signal frame: one row per row of `data`, with the same index. */
  function GenerateSignals(data: Frame): (r: seq<SignalRow>)
    requires WellFormed(data)
    requires DrawdownColumnName in data.columns && "Close" in data.columns
    ensures |r| == |data.index|
    ensures forall t :: 0 <= t < |r| ==> r[t].date == data.index[t] && |r[t].entries| == NumEntries
  {
    var drawdown := data.columns[DrawdownColumnName];
    var filled := ForwardFill(data.columns["Close"]);
    seq(|data.index|, t requires 0 <= t < |data.index| =>
      SignalRow(data.index[t],
                seq(NumEntries, k requires 0 <= k < NumEntries => EntrySignal(drawdown[t], k)),
                ExitSignal(filled, t)))
  }

  /** `Entry{k+1}` is true exactly when `DrawdownPct` is defined and at most
      the k-th threshold; an undefined drawdown (the first 19 bars) fires no
      entry. */
  lemma EntryAt(data: Frame, t: nat, k: nat)
    requires WellFormed(data)
    requires DrawdownColumnName in data.columns && "Close" in data.columns
    requires t < |data.index| && k < NumEntries
    ensures GenerateSignals(data)[t].entries[k] <==>
              data.columns[DrawdownColumnName][t].Some? &&
              data.columns[DrawdownColumnName][t].value <= EntryThresholds[k]
    ensures data.columns[DrawdownColumnName][t].None? ==> !GenerateSignals(data)[t].entries[k]
  {
  }

  /** The entry levels are nested: `Entry5 => Entry4 => Entry3 => Entry2 => Entry1`. */
  lemma EntriesNested(data: Frame, t: nat, k: nat, m: nat)
    requires WellFormed(data)
    requires DrawdownColumnName in data.columns && "Close" in data.columns
    requires t < |data.index| && k <= m < NumEntries
    ensures GenerateSignals(data)[t].entries[m] ==> GenerateSignals(data)[t].entries[k]
  {
    assert EntryThresholds[m] <= EntryThresholds[k];
  }

  /** The forward fill at row i is the latest non-NaN Close at or before i. */
  lemma ForwardFillAt(xs: seq<Option<real>>, i: nat)
    requires i < |xs|
    ensures ForwardFill(xs)[i].None? <==> forall j :: 0 <= j <= i ==> xs[j].None?
    ensures ForwardFill(xs)[i].Some? ==>
              exists j :: 0 <= j <= i && xs[j] == ForwardFill(xs)[i] &&
                          forall m :: j < m <= i ==> xs[m].None?
  {
    var p := xs[..i + 1];
    assert forall j :: 0 <= j <= i ==> p[j] == xs[j];
    var r := LastDefined(p);
    assert ForwardFill(xs)[i] == r;
    LastDefinedIsLatest(p);
    if r.Some? {
      var j :| 0 <= j < |p| && p[j] == r && forall m :: j < m < |p| ==> p[m].None?;
      assert xs[j] == r;
    }
  }

  /** For a Close column without NaN and positive prices, `Exit[t]` holds
      exactly when t >= 20 and `Close[t] >= 1.2 * Close[t-20]`. */
  lemma ExitAt(data: Frame, t: nat)
    requires WellFormed(data)
    requires DrawdownColumnName in data.columns && "Close" in data.columns
    requires t < |data.index|
    requires forall i :: 0 <= i < |data.index| ==>
               data.columns["Close"][i].Some? && data.columns["Close"][i].value > 0.0
    ensures GenerateSignals(data)[t].exit <==>
              t >= ExitPeriods &&
              data.columns["Close"][t].value >= 1.2 * data.columns["Close"][t - ExitPeriods].value
  {
    var close := data.columns["Close"];
    if t >= ExitPeriods {
      var now, before := close[t].value, close[t - ExitPeriods].value;
      GainIsRatio(now, before);
    }
  }

  /** For a positive base, a gain of at least 20 % is a ratio of at least 1.2. */
  lemma GainIsRatio(now: real, before: real)
    requires before > 0.0
    ensures GainAtLeast(now, before) <==> now >= 1.2 * before
  {
    var q := now / before;
    assert now == q * before;
    if q >= 1.2 {
      assert q * before >= 1.2 * before;
    } else {
      assert q * before < 1.2 * before;
    }
  }
}
