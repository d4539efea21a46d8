/** The price frame and `SPXLDataProcessor.calculate_signals`: the check
    for the four price columns, the 20-bar rolling maximum of High
    (`LocalHigh`) and the percentage drawdown of Close from it
    (`DrawdownPct`, rounded to two decimals). */
module DataProcessing {
  import opened Types

  /** Length of the rolling window of `LocalHigh`. */
  const Window: nat := 20

  /** The columns `calculate_signals` requires, in the order it checks them. */
  const NumericColumns: seq<string> := ["Open", "High", "Low", "Close"]

  const LocalHighColumnName: string := "LocalHigh"
  const DrawdownColumnName: string := "DrawdownPct"

  /** A data frame: a date index and named numeric columns whose cells may be NaN. */
  datatype Frame = Frame(index: seq<Date>, columns: map<string, seq<Option<real>>>)

  /** Every column has one cell per row of the index. */
  ghost predicate WellFormed(f: Frame)
  {
    forall c :: c in f.columns ==> |f.columns[c]| == |f.index|
  }

  /** All four price columns are present. */
  predicate HasPriceColumns(f: Frame)
  {
    "Open" in f.columns && "High" in f.columns && "Low" in f.columns && "Close" in f.columns
  }

  /** Column `NumericColumns[i]` is the first one of the four that is missing. */
  predicate FirstMissing(f: Frame, i: nat)
  {
    i < |NumericColumns| && NumericColumns[i] !in f.columns &&
    forall j :: 0 <= j < i ==> NumericColumns[j] in f.columns
  }

  function MissingColumnMessage(col: string): string
  {
    "Required column " + col + " not found in data"
  }

  /** Maximum of a window of cells; like pandas' rolling max it is NaN as
      soon as one cell of the window is NaN. */
  function WindowMax(xs: seq<Option<real>>): (r: Option<real>)
    requires |xs| > 0
    ensures r.Some? <==> forall i :: 0 <= i < |xs| ==> xs[i].Some?
    ensures r.Some? ==> forall i :: 0 <= i < |xs| ==> xs[i].value <= r.value
    ensures r.Some? ==> exists i :: 0 <= i < |xs| && xs[i].value == r.value
  {
    if |xs| == 1 then xs[0]
    else
      var rest := WindowMax(xs[1..]);
      assert forall i :: 1 <= i < |xs| ==> xs[i] == xs[1..][i - 1];
      match (xs[0], rest)
      case (Some(a), Some(b)) => Some(if a >= b then a else b)
      case _ => None
  }

  /** `High.rolling(window=20).max()` at row t: NaN for the first 19 rows. */
  function RollingMax(high: seq<Option<real>>, t: nat): Option<real>
    requires t < |high|
  {
    if t + 1 < Window then None else WindowMax(high[t + 1 - Window .. t + 1])
  }

  /** The `LocalHigh` column. */
  function LocalHighColumn(high: seq<Option<real>>): (r: seq<Option<real>>)
    ensures |r| == |high|
  {
    seq(|high|, t requires 0 <= t < |high| => RollingMax(high, t))
  }

  /** numpy's rint: the nearest integer, ties going to the even one. */
  function RoundHalfEven(y: real): (n: int)
    ensures y - 0.5 <= n as real <= y + 0.5
    ensures (n as real == y - 0.5 || n as real == y + 0.5) ==> n % 2 == 0
  {
    var f := y.Floor;
    var frac := y - f as real;
    if frac < 0.5 then f
    else if frac > 0.5 then f + 1
    else if f % 2 == 0 then f
    else f + 1
  }

  /** Rounding to an integer never reverses the order of two values. */
  lemma RoundHalfEvenMonotone(x: real, y: real)
    requires x <= y
    ensures RoundHalfEven(x) <= RoundHalfEven(y)
  {
    var m, n := RoundHalfEven(x), RoundHalfEven(y);
    if m > n {
      // m <= x + 1/2 <= y + 1/2 <= n + 1 forces x == y, hence m == n
      assert m == n + 1;
      assert x == y;
    }
  }

  /** numpy's `round(2)`: scale by 100, round half to even, scale back. */
  function Round2(x: real): (r: real)
    ensures x - 0.005 <= r <= x + 0.005
    ensures (r * 100.0).Floor as real == r * 100.0
  {
    RoundHalfEven(x * 100.0) as real / 100.0
  }

  /** Rounding a value that is not positive gives a value that is not positive. */
  lemma Round2NonPositive(x: real)
    requires x <= 0.0
    ensures Round2(x) <= 0.0
  {
    RoundHalfEvenMonotone(x * 100.0, 0.0);
    assert RoundHalfEven(0.0) == 0;
  }

  /** `DrawdownPct` at one row: NaN where Close or LocalHigh is NaN. */
  function DrawdownAt(close: Option<real>, localHigh: Option<real>): Option<real>
  {
    match (close, localHigh)
    case (Some(c), Some(h)) =>
      if h == 0.0 then None else Some(Round2((c - h) / h * 100.0))
    case _ => None
  }

  /** The `DrawdownPct` column. */
  function DrawdownColumn(close: seq<Option<real>>, localHigh: seq<Option<real>>): (r: seq<Option<real>>)
    requires |close| == |localHigh|
    ensures |r| == |close|
  {
    seq(|close|, t requires 0 <= t < |close| => DrawdownAt(close[t], localHigh[t]))
  }

  /** The frame `calculate_signals` leaves behind once the column check
      passed: same rows, every column kept, `LocalHigh` and `DrawdownPct`
      added (replaced if they were already there). */
  function WithSignalColumns(f: Frame): (g: Frame)
    requires WellFormed(f) && HasPriceColumns(f)
    ensures WellFormed(g) && HasPriceColumns(g)
    ensures g.index == f.index
    ensures g.columns.Keys == f.columns.Keys + {LocalHighColumnName, DrawdownColumnName}
    ensures forall c :: c in f.columns && c != LocalHighColumnName && c != DrawdownColumnName ==>
              g.columns[c] == f.columns[c]
    ensures g.columns[LocalHighColumnName] == LocalHighColumn(f.columns["High"])
    ensures g.columns[DrawdownColumnName] == DrawdownColumn(f.columns["Close"], g.columns[LocalHighColumnName])
  {
    var localHigh := LocalHighColumn(f.columns["High"]);
    f.(columns := f.columns[LocalHighColumnName := localHigh]
                           [DrawdownColumnName := DrawdownColumn(f.columns["Close"], localHigh)])
  }

  /** `LocalHigh[t]` is the maximum of the 20 highs ending at row t: undefined
      for the first 19 rows and wherever one of those highs is NaN. */
  lemma LocalHighAt(high: seq<Option<real>>, t: nat)
    requires t < |high|
    ensures LocalHighColumn(high)[t].Some? <==>
              Window <= t + 1 && forall j :: t + 1 - Window <= j <= t ==> high[j].Some?
    ensures LocalHighColumn(high)[t].Some? ==>
              (forall j :: t + 1 - Window <= j <= t ==> high[j].value <= LocalHighColumn(high)[t].value) &&
              exists j :: t + 1 - Window <= j <= t && high[j].value == LocalHighColumn(high)[t].value
  {
    if Window <= t + 1 {
      var w := high[t + 1 - Window .. t + 1];
      assert forall j :: t + 1 - Window <= j <= t ==> high[j] == w[j - (t + 1 - Window)];
      if LocalHighColumn(high)[t].Some? {
        var i :| 0 <= i < |w| && w[i].value == LocalHighColumn(high)[t].value;
        assert high[i + (t + 1 - Window)] == w[i];
      }
    }
  }

  /** On a well-formed bar (Close <= High) with a positive rolling high the
      drawdown is defined and never positive. */
  lemma DrawdownNonPositive(f: Frame, t: nat)
    requires WellFormed(f) && HasPriceColumns(f)
    requires t < |f.index|
    requires f.columns["Close"][t].Some? && f.columns["High"][t].Some?
    requires f.columns["Close"][t].value <= f.columns["High"][t].value
    requires WithSignalColumns(f).columns[LocalHighColumnName][t].Some?
    requires WithSignalColumns(f).columns[LocalHighColumnName][t].value > 0.0
    ensures WithSignalColumns(f).columns[DrawdownColumnName][t].Some?
    ensures WithSignalColumns(f).columns[DrawdownColumnName][t].value <= 0.0
  {
    var high := f.columns["High"];
    var c := f.columns["Close"][t].value;
    var localHigh := LocalHighColumn(high);
    assert WithSignalColumns(f).columns[LocalHighColumnName] == localHigh;
    assert WithSignalColumns(f).columns[DrawdownColumnName] == DrawdownColumn(f.columns["Close"], localHigh);
    LocalHighAt(high, t);
    var h := localHigh[t].value;
    assert high[t].value <= h;
    FallPercentNonPositive(c, h);
    Round2NonPositive((c - h) / h * 100.0);
    assert DrawdownColumn(f.columns["Close"], localHigh)[t] == Some(Round2((c - h) / h * 100.0));
  }

  /** A close at or under a positive high is a fall of zero or more percent. */
  lemma FallPercentNonPositive(c: real, h: real)
    requires c <= h && h > 0.0
    ensures (c - h) / h * 100.0 <= 0.0
  {
    var q := (c - h) / h;
    assert q * h == c - h;
  }

  /** `DrawdownPct[t]` is defined exactly where Close and LocalHigh are (and
      LocalHigh is non-zero), and then it is (Close - LocalHigh) / LocalHigh
      in percent, within half a cent of the exact value. */
  lemma DrawdownAtRow(f: Frame, t: nat)
    requires WellFormed(f) && HasPriceColumns(f)
    requires t < |f.index|
    ensures var g := WithSignalColumns(f);
            var c := f.columns["Close"][t];
            var h := g.columns[LocalHighColumnName][t];
            && (g.columns[DrawdownColumnName][t].Some? <==> c.Some? && h.Some? && h.value != 0.0)
            && (g.columns[DrawdownColumnName][t].Some? ==>
                  var exact := (c.value - h.value) / h.value * 100.0;
                  var d := g.columns[DrawdownColumnName][t].value;
                  && d == Round2(exact)
                  && exact - 0.005 <= d <= exact + 0.005
                  && (d * 100.0).Floor as real == d * 100.0)
  {
  }

  /** The data processor: `data` is the frame it owns and extends in place. */
  class SPXLDataProcessor {
    var data: Frame

    /** Stands for the frame `load_or_download_data` leaves behind. */
    constructor (loaded: Frame)
      ensures data == loaded
    {
      data := loaded;
    }

    /** Checks Open, High, Low, Close in that order and raises on the first
        missing one; otherwise adds `LocalHigh` and `DrawdownPct` to `data`
        and returns it. */
    method CalculateSignals() returns (r: Result<Frame>)
      requires WellFormed(data)
      modifies this
      ensures r.Err? <==> !HasPriceColumns(old(data))
      ensures r.Err? ==> data == old(data)
      ensures r.Err? ==> exists i: nat :: FirstMissing(old(data), i) && r.message == MissingColumnMessage(NumericColumns[i])
      ensures r.Ok? ==> data == WithSignalColumns(old(data)) && r.value == data && WellFormed(data)
    {
      var i := 0;
      while i < |NumericColumns|
        invariant 0 <= i <= |NumericColumns|
        invariant data == old(data)
        invariant forall j :: 0 <= j < i ==> NumericColumns[j] in data.columns
      {
        var col := NumericColumns[i];
        if col !in data.columns {
          assert FirstMissing(data, i);
          return Err(MissingColumnMessage(col));
        }
        // pd.to_numeric(errors='coerce') leaves cells that are numbers or NaN as they are
        i := i + 1;
      }
      assert NumericColumns[0] in data.columns && NumericColumns[1] in data.columns;
      assert NumericColumns[2] in data.columns && NumericColumns[3] in data.columns;
      data := WithSignalColumns(data);
      r := Ok(data);
    }
  }
}
