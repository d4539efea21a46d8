/** `PositionManager`: a cash account with five entry stages, each holding
    a share count and an entry price, an append-only trade log and one
    snapshot per bar.

    The first half of the module states each operation as a function on an
    `Account` value and proves what the strategy relies on: cash never goes
    negative, exposure (valued at ENTRY prices) stays at most 0.90, a trade
    at price p keeps `cash + shares * p`, an exit signal that passes the
    gain gate flattens every stage, a reduction sells at most a tenth of the
    shares and never closes a stage, and a held stage is never reopened.
    The second half is the `PositionManager` class, whose methods update its
    fields in place and are proved to compute exactly those functions. */
module Positions {
  import opened Types
  import opened SignalGeneration

  /** Number of entry stages (`Entry1` .. `Entry5`, here 0 .. 4). */
  const NumStages: nat := 5

  /** `position_sizes`: the fraction of initial capital each stage buys. */
  const PositionSizes: seq<real> := [0.20, 0.15, 0.20, 0.20, 0.15]

  /** An entry is refused if it would lift exposure above this. */
  const MaxExposure: real := 0.90

  /** A break-even reduction only happens above this exposure. */
  const ReductionTrigger: real := 0.75

  /** `reduction_amount`: the fraction of all shares a reduction sells. */
  const ReductionAmount: real := 0.10

  /** The exit gate: price at least 1.20 times the average entry price. */
  const ExitMultiple: real := 1.20

  /** The default `initial_capital`. */
  const DefaultInitialCapital: real := 100000.0

  datatype TradeKind = EnterKind | ExitKind | ReduceKind

  /** One row of `trades`: `Type` is `kind` together with `stage`
      (`ENTER_Entry1` is `EnterKind` at stage 0); `shares` is negative for sales. */
  datatype Trade = Trade(date: Date, kind: TradeKind, stage: nat, shares: int,
                         price: real, value: real, cash: real)

  /** One row of `daily_positions`. */
  datatype Snapshot = Snapshot(date: Date, portfolioValue: real, cash: real,
                               exposure: real, totalShares: nat, price: real)

  /** The state of a `PositionManager` as a value: `cash`,
      `active_positions`, `entry_prices`, `trades`, `daily_positions`. */
  datatype Account = Account(cash: real, shares: seq<nat>, entryPrices: seq<real>,
                             trades: seq<Trade>, daily: seq<Snapshot>)

  /** The state right after `__init__`. */
  function Initial(capital: real): Account
  {
    Account(capital, [0, 0, 0, 0, 0], [0.0, 0.0, 0.0, 0.0, 0.0], [], [])
  }

  /** Five stages, one share count and one entry price each. */
  predicate Shaped(a: Account)
  {
    |a.shares| == NumStages && |a.entryPrices| == NumStages
  }

  /** The price and signal inputs of a backtest: aligned, positive closes,
      five entry flags per signal row. */
  predicate Aligned(dates: seq<Date>, closes: seq<real>, signals: seq<SignalRow>)
  {
    |dates| == |closes| == |signals| &&
    (forall t :: 0 <= t < |closes| ==> closes[t] > 0.0) &&
    (forall t :: 0 <= t < |signals| ==> |signals[t].entries| == NumStages)
  }

  // ---------------------------------------------------------------------
  // Pure reads: share total, cost basis, exposure, average entry, sizing
  // ---------------------------------------------------------------------

  /** `sum(active_positions.values())`. */
  function TotalShares(s: seq<nat>): nat
  {
    if s == [] then 0 else s[0] + TotalShares(s[1..])
  }

  /** `sum(shares * entry_price)` over the stages. */
  function CostBasis(s: seq<nat>, p: seq<real>): real
    requires |s| == |p|
  {
    if s == [] then 0.0 else s[0] as real * p[0] + CostBasis(s[1..], p[1..])
  }

  /** `get_total_exposure`: the position valued at entry prices, over initial capital. */
  function TotalExposure(s: seq<nat>, p: seq<real>, capital: real): real
    requires |s| == |p| && capital > 0.0
  {
    CostBasis(s, p) / capital
  }

  /** `get_average_entry_price`: entry prices weighted by shares, 0 when flat. */
  function AverageEntryPrice(s: seq<nat>, p: seq<real>): real
    requires |s| == |p|
  {
    if TotalShares(s) == 0 then 0.0 else CostBasis(s, p) / TotalShares(s) as real
  }

  /** `calculate_position_size`: the most whole shares that
      `initial_capital * weight` buys at `price`. */
  function PositionSize(capital: real, k: nat, price: real): (n: nat)
    requires capital > 0.0 && k < NumStages && price > 0.0
    ensures n as real * price <= capital * PositionSizes[k] < (n + 1) as real * price
  {
    FloorDivision(capital * PositionSizes[k], price);
    (capital * PositionSizes[k] / price).Floor
  }

  /** The marked-to-market value of an account at `price`. */
  function Worth(a: Account, price: real): real
  {
    a.cash + TotalShares(a.shares) as real * price
  }

  /** Some cash or some shares: the portfolio value at a positive price is positive. */
  predicate Solvent(a: Account)
  {
    a.cash > 0.0 || TotalShares(a.shares) > 0
  }

  /** The account invariant: cash not negative, entry prices not negative,
      cost basis at most 0.90 of the initial capital. */
  ghost predicate Inv(a: Account, capital: real)
  {
    capital > 0.0 && Shaped(a) && a.cash >= 0.0 &&
    (forall i :: 0 <= i < NumStages ==> a.entryPrices[i] >= 0.0) &&
    CostBasis(a.shares, a.entryPrices) <= MaxExposure * capital
  }

  // ---------------------------------------------------------------------
  // Arithmetic helpers
  // ---------------------------------------------------------------------

  lemma MulMonotone(x: real, y: real, c: real)
    requires x <= y && c >= 0.0
    ensures x * c <= y * c && c * x <= c * y
  {
  }

  lemma MulStrict(x: real, y: real, c: real)
    requires x < y && c > 0.0
    ensures x * c < y * c
  {
  }

  lemma MulNonNegative(x: real, y: real)
    requires x >= 0.0 && y >= 0.0
    ensures x * y >= 0.0
  {
  }

  lemma MulDistributes(x: real, y: real, c: real)
    ensures (x + y) * c == x * c + y * c
    ensures (x - y) * c == x * c - y * c
  {
  }

  /** The whole number of times c fits into y. */
  lemma FloorDivision(y: real, c: real)
    requires y >= 0.0 && c > 0.0
    ensures 0 <= (y / c).Floor
    ensures (y / c).Floor as real * c <= y < ((y / c).Floor + 1) as real * c
  {
    var x := y / c;
    var n := x.Floor;
    var up := n as real + 1.0;
    assert x * c == y;
    assert x >= 0.0 by {
      if x < 0.0 {
        MulStrict(x, 0.0, c);
      }
    }
    assert n as real <= x < up;
    MulMonotone(n as real, x, c);
    StrictTimes(x, up, c, y);
    assert (n + 1) as real == up;
  }

  lemma StrictTimes(x: real, up: real, c: real, y: real)
    requires x < up && c > 0.0 && x * c == y
    ensures y < up * c
  {
    MulStrict(x, up, c);
  }

  /** Dividing by a positive capital keeps a bound scaled by it. */
  lemma DivideBound(x: real, c: real, bound: real)
    requires c > 0.0 && x <= bound * c
    ensures x / c <= bound
  {
    assert x / c * c == x;
  }

  /** The exposure test of `enter_position`, cleared of its division. */
  lemma ExposureGuard(cb: real, capital: real, w: real)
    requires capital > 0.0 && cb / capital + w <= MaxExposure
    ensures cb + capital * w <= MaxExposure * capital
  {
    assert cb / capital * capital == cb;
    MulMonotone(cb / capital + w, MaxExposure, capital);
    MulDistributes(cb / capital, w, capital);
  }

  lemma {:induction false} TotalSharesUpdate(s: seq<nat>, k: nat, v: nat)
    requires k < |s|
    ensures TotalShares(s[k := v]) == TotalShares(s) - s[k] + v
  {
    if k > 0 {
      assert s[k := v][1..] == s[1..][k - 1 := v];
      TotalSharesUpdate(s[1..], k - 1, v);
    } else {
      assert s[k := v][1..] == s[1..];
    }
  }

  lemma {:induction false} CostBasisUpdate(s: seq<nat>, p: seq<real>, k: nat, v: nat, q: real)
    requires |s| == |p| && k < |s|
    ensures CostBasis(s[k := v], p[k := q]) == CostBasis(s, p) - s[k] as real * p[k] + v as real * q
  {
    if k > 0 {
      assert s[k := v][1..] == s[1..][k - 1 := v];
      assert p[k := q][1..] == p[1..][k - 1 := q];
      CostBasisUpdate(s[1..], p[1..], k - 1, v, q);
    } else {
      assert s[k := v][1..] == s[1..];
      assert p[k := q][1..] == p[1..];
    }
  }

  lemma {:induction false} CostBasisNonNegative(s: seq<nat>, p: seq<real>)
    requires |s| == |p|
    requires forall i :: 0 <= i < |p| ==> p[i] >= 0.0
    ensures CostBasis(s, p) >= 0.0
  {
    if s != [] {
      MulNonNegative(s[0] as real, p[0]);
      CostBasisNonNegative(s[1..], p[1..]);
    }
  }

  /** Without shares there is no cost basis. */
  lemma {:induction false} CostBasisOfNoShares(s: seq<nat>, p: seq<real>)
    requires |s| == |p| && TotalShares(s) == 0
    ensures CostBasis(s, p) == 0.0
  {
    if s != [] {
      CostBasisOfNoShares(s[1..], p[1..]);
    }
  }

  /** Held entry prices at most hi put the cost basis at most hi times the
      share total. */
  lemma {:induction false} CostBasisAtMost(s: seq<nat>, p: seq<real>, hi: real)
    requires |s| == |p|
    requires forall i :: 0 <= i < |s| && s[i] > 0 ==> p[i] <= hi
    ensures CostBasis(s, p) <= TotalShares(s) as real * hi
  {
    if s != [] {
      var t, q := s[1..], p[1..];
      forall i | 0 <= i < |t| && t[i] > 0
        ensures q[i] <= hi
      {
        assert t[i] == s[i + 1] && q[i] == p[i + 1];
      }
      CostBasisAtMost(t, q, hi);
      StageStepAbove(s[0], p[0], TotalShares(t), CostBasis(t, q), hi);
    }
  }

  /** Held entry prices at least lo put the cost basis at least lo times the
      share total. */
  lemma {:induction false} CostBasisAtLeast(s: seq<nat>, p: seq<real>, lo: real)
    requires |s| == |p|
    requires forall i :: 0 <= i < |s| && s[i] > 0 ==> lo <= p[i]
    ensures TotalShares(s) as real * lo <= CostBasis(s, p)
  {
    if s != [] {
      var t, q := s[1..], p[1..];
      forall i | 0 <= i < |t| && t[i] > 0
        ensures lo <= q[i]
      {
        assert t[i] == s[i + 1] && q[i] == p[i + 1];
      }
      CostBasisAtLeast(t, q, lo);
      StageStepBelow(s[0], p[0], TotalShares(t), CostBasis(t, q), lo);
    }
  }

  /** One stage added to a bounded rest keeps the bound. */
  lemma StageStepAbove(n: nat, price: real, total: nat, rest: real, hi: real)
    requires n > 0 ==> price <= hi
    requires rest <= total as real * hi
    ensures n as real * price + rest <= (n + total) as real * hi
  {
    StageBound(n, price, hi);
    AddScaledAbove(n as real, total as real, hi, n as real * price, rest);
  }

  lemma StageStepBelow(n: nat, price: real, total: nat, rest: real, lo: real)
    requires n > 0 ==> lo <= price
    requires total as real * lo <= rest
    ensures (n + total) as real * lo <= n as real * price + rest
  {
    StageBound(n, lo, price);
    AddScaled(n as real, total as real, lo, n as real * price, rest);
  }

  /** Two scaled upper bounds add up. */
  lemma AddScaledAbove(n: real, m: real, c: real, x: real, y: real)
    requires x <= n * c && y <= m * c
    ensures x + y <= (n + m) * c
  {
    MulDistributes(n, m, c);
  }

  /** Two scaled lower bounds add up. */
  lemma AddScaled(n: real, m: real, c: real, x: real, y: real)
    requires n * c <= x && m * c <= y
    ensures (n + m) * c <= x + y
  {
    MulDistributes(n, m, c);
  }

  /** One stage's cost: a bound on the price of a held stage bounds it. */
  lemma StageBound(n: nat, x: real, y: real)
    requires n > 0 ==> x <= y
    ensures n as real * x <= n as real * y
  {
    if n > 0 {
      MulMonotone(x, y, n as real);
    }
  }


  /** The share-weighted average entry price lies between the smallest and
      the largest entry price of the held stages. */
  lemma AverageEntryBetween(s: seq<nat>, p: seq<real>, lo: real, hi: real)
    requires |s| == |p| && TotalShares(s) > 0
    requires forall i :: 0 <= i < |s| && s[i] > 0 ==> lo <= p[i] <= hi
    ensures lo <= AverageEntryPrice(s, p) <= hi
  {
    CostBasisAtLeast(s, p, lo);
    CostBasisAtMost(s, p, hi);
    var t := TotalShares(s) as real;
    QuotientAtLeast(CostBasis(s, p), t, lo);
    QuotientAtMost(CostBasis(s, p), t, hi);
  }

  /** A positive exposure means some stage holds shares. */
  lemma ExposedHasShares(s: seq<nat>, p: seq<real>, capital: real)
    requires |s| == |p| && capital > 0.0
    requires TotalExposure(s, p, capital) > 0.0
    ensures TotalShares(s) > 0
  {
    if TotalShares(s) == 0 {
      CostBasisOfNoShares(s, p);
    }
  }

  /** The invariant's cost-basis bound is the 0.90 exposure cap
      `enter_position` enforces. */
  lemma InvBoundsExposure(a: Account, capital: real)
    requires Inv(a, capital)
    ensures 0.0 <= TotalExposure(a.shares, a.entryPrices, capital) <= MaxExposure
  {
    CostBasisNonNegative(a.shares, a.entryPrices);
    DivideBound(CostBasis(a.shares, a.entryPrices), capital, MaxExposure);
  }

  /** Some stage holds shares when the total is positive. */
  lemma {:induction false} HeldStage(s: seq<nat>) returns (i: nat)
    requires TotalShares(s) > 0
    ensures i < |s| && s[i] > 0
  {
    if s[0] > 0 {
      i := 0;
    } else {
      var j := HeldStage(s[1..]);
      i := j + 1;
    }
  }

  /** The total is at least what any one stage holds. */
  lemma {:induction false} TotalSharesAtLeast(s: seq<nat>, i: nat)
    requires i < |s|
    ensures TotalShares(s) >= s[i]
  {
    if i > 0 {
      TotalSharesAtLeast(s[1..], i - 1);
    }
  }

  /** Number of stages from k on that hold shares. */
  function HeldFrom(s: seq<nat>, k: nat): nat
    requires k <= |s|
    decreases |s| - k
  {
    if k == |s| then 0 else (if s[k] > 0 then 1 else 0) + HeldFrom(s, k + 1)
  }

  lemma {:induction false} HeldFromSame(s: seq<nat>, t: seq<nat>, k: nat)
    requires |s| == |t| && k <= |s|
    requires forall i :: k <= i < |s| ==> s[i] == t[i]
    ensures HeldFrom(s, k) == HeldFrom(t, k)
    decreases |s| - k
  {
    if k < |s| {
      HeldFromSame(s, t, k + 1);
    }
  }

  // ---------------------------------------------------------------------
  // Entering, exiting, reducing, recording
  // ---------------------------------------------------------------------

  /** `enter_position`: refused (False, nothing changes) when exposure plus
      the stage weight exceeds 0.90 or the cost exceeds cash; otherwise the
      stage holds the new shares at `price`, cash pays for them and one
      ENTER trade is logged. */
  function Enter(a: Account, capital: real, k: nat, price: real, date: Date): (r: (Account, bool))
    requires Shaped(a) && capital > 0.0 && k < NumStages && price > 0.0
    ensures Shaped(r.0)
  {
    if TotalExposure(a.shares, a.entryPrices, capital) + PositionSizes[k] > MaxExposure then (a, false)
    else
      var n := PositionSize(capital, k, price);
      var cost := n as real * price;
      if cost > a.cash then (a, false)
      else
        var cash := a.cash - cost;
        (a.(cash := cash, shares := a.shares[k := n], entryPrices := a.entryPrices[k := price],
            trades := a.trades + [Trade(date, EnterKind, k, n, price, cost, cash)]), true)
  }

  /** `exit_position`: the stage is emptied and its entry price cleared,
      its shares are sold at `price`, and one EXIT trade is logged. */
  function Exit(a: Account, k: nat, price: real, date: Date): (r: Account)
    requires Shaped(a) && k < NumStages
    ensures Shaped(r)
  {
    var n := a.shares[k];
    var proceeds := n as real * price;
    var cash := a.cash + proceeds;
    a.(cash := cash, shares := a.shares[k := 0], entryPrices := a.entryPrices[k := 0.0],
       trades := a.trades + [Trade(date, ExitKind, k, -(n as int), price, proceeds, cash)])
  }

  /** The exit loop of `run_backtest`: every stage from k on that holds
      shares is exited, in stage order. */
  function ExitAll(a: Account, price: real, date: Date, k: nat): (r: Account)
    requires Shaped(a) && k <= NumStages
    ensures Shaped(r)
    decreases NumStages - k
  {
    if k == NumStages then a
    else ExitAll(if a.shares[k] > 0 then Exit(a, k, price, date) else a, price, date, k + 1)
  }

  /** The shares a reduction takes from a stage holding `held`:
      `int(held / total * to_sell)`, which on exact numbers is the floor of
      `held * to_sell / total`; never more than the stage holds. */
  function ReductionFor(held: nat, total: nat, toSell: nat): (r: nat)
    requires total > 0 && toSell <= total
    ensures r <= held
  {
    DivisionBounded(held * toSell, held, total);
    (held * toSell) / total
  }

  /** The cut is exactly the floor of `held * to_sell / total`. */
  lemma ReductionFloor(held: nat, total: nat, toSell: nat)
    requires total > 0 && toSell <= total
    ensures var r := ReductionFor(held, total, toSell);
            r * total <= held * toSell < (r + 1) * total
  {
  }

  lemma DivisionBounded(x: nat, held: nat, total: nat)
    requires total > 0 && x <= held * total
    ensures x / total <= held
  {
    var q := x / total;
    assert q * total <= x;
    assert (q - held) * total <= 0;
  }

  /** A stage's cut is at most its proportional part of `to_sell`. */
  lemma ReductionProportional(held: nat, total: nat, toSell: nat)
    requires total > 0 && toSell <= total
    ensures ReductionFor(held, total, toSell) as real <= held as real * (toSell as real / total as real)
  {
    var r := ReductionFor(held, total, toSell);
    var h, n, t := held as real, toSell as real, total as real;
    FloorTimesBound(held * toSell, total);
    CastProduct(r, total);
    CastProduct(held, toSell);
    QuotientAtLeast(h * n, t, r as real);
    ScaledQuotient(h, n, t);
  }

  /** The floor quotient times the divisor never exceeds the dividend. */
  lemma FloorTimesBound(x: nat, d: nat)
    requires d > 0
    ensures (x / d) * d <= x
  {
  }

  lemma CastProduct(a: nat, b: nat)
    ensures (a * b) as real == a as real * b as real
  {
  }

  lemma ScaledQuotient(h: real, n: real, t: real)
    requires t > 0.0
    ensures h * n / t == h * (n / t)
  {
    var q := n / t;
    assert q * t == n;
    assert h * q * t == h * n;
  }

  /** The cut of every stage, fixed by the holdings when the reduction
      starts (each stage is visited once, before anything is sold from
      it); a flat stage's cut is zero. */
  function Cuts(s: seq<nat>, total: nat, toSell: nat): (c: seq<nat>)
    requires total > 0 && toSell <= total
    ensures |c| == |s|
    ensures forall i :: 0 <= i < |s| ==> c[i] <= s[i]
    ensures forall i :: 0 <= i < |s| && s[i] == 0 ==> c[i] == 0
  {
    seq(|s|, i requires 0 <= i < |s| => if s[i] > 0 then ReductionFor(s[i], total, toSell) else 0)
  }

  /** Each held stage's cut is the floor of its holding times
      `to_sell / total`. */
  lemma CutsFloor(s: seq<nat>, total: nat, toSell: nat)
    requires total > 0 && toSell <= total
    ensures var c := Cuts(s, total, toSell);
            forall i :: 0 <= i < |s| && s[i] > 0 ==> c[i] * total <= s[i] * toSell < (c[i] + 1) * total
  {
    var c := Cuts(s, total, toSell);
    forall i | 0 <= i < |s| && s[i] > 0
      ensures c[i] * total <= s[i] * toSell < (c[i] + 1) * total
    {
      assert c[i] == ReductionFor(s[i], total, toSell);
      ReductionFloor(s[i], total, toSell);
    }
  }

  /** One step of the reduction loop: stage k gives up `cut` shares at
      `price`, the proceeds go to cash, and a REDUCE trade is logged. */
  function CutStage(a: Account, price: real, date: Date, k: nat, cut: nat): (r: Account)
    requires Shaped(a) && k < NumStages && cut <= a.shares[k]
    ensures Shaped(r)
  {
    var proceeds := cut as real * price;
    var cash := a.cash + proceeds;
    a.(shares := a.shares[k := a.shares[k] - cut], cash := cash,
       trades := a.trades + [Trade(date, ReduceKind, k, -(cut as int), price, proceeds, cash)])
  }

  /** The loop of `reduce_position` from stage k on: every held stage gives
      up its cut, and one REDUCE trade is logged per held stage (also when
      its cut is zero). */
  function ReduceFrom(a: Account, price: real, date: Date, cuts: seq<nat>, k: nat): (r: Account)
    requires Shaped(a) && k <= NumStages && |cuts| == NumStages
    requires forall i :: k <= i < NumStages ==> cuts[i] <= a.shares[i]
    ensures Shaped(r)
    decreases NumStages - k
  {
    if k == NumStages then a
    else if a.shares[k] > 0 then ReduceFrom(CutStage(a, price, date, k, cuts[k]), price, date, cuts, k + 1)
    else ReduceFrom(a, price, date, cuts, k + 1)
  }

  /** `int(total_shares * reduction_amount)`. */
  function SharesToSell(total: nat): (n: nat)
    ensures n <= total
    ensures n as real <= total as real * ReductionAmount < (n + 1) as real
  {
    (total as real * ReductionAmount).Floor
  }

  /** `reduce_position`: nothing happens at exposure 0.75 or below. */
  function Reduce(a: Account, capital: real, price: real, date: Date): (r: Account)
    requires Shaped(a) && capital > 0.0
    ensures Shaped(r)
  {
    if TotalExposure(a.shares, a.entryPrices, capital) > ReductionTrigger then
      ExposedHasShares(a.shares, a.entryPrices, capital);
      var total := TotalShares(a.shares);
      ReduceFrom(a, price, date, Cuts(a.shares, total, SharesToSell(total)), 0)
    else a
  }

  /** `record_daily_position`: one snapshot, the position marked at `price`. */
  function Record(a: Account, capital: real, date: Date, price: real): (r: Account)
    requires Shaped(a) && capital > 0.0
    ensures Shaped(r)
  {
    var total := TotalShares(a.shares);
    a.(daily := a.daily + [Snapshot(date, a.cash + total as real * price, a.cash,
                                    TotalExposure(a.shares, a.entryPrices, capital), total, price)])
  }

  // ---------------------------------------------------------------------
  // One bar of `run_backtest`, and the whole backtest
  // ---------------------------------------------------------------------

  /** Exit check: an Exit signal, some shares held, and the price at least
      1.20 times the average entry price. */
  predicate ExitGatePasses(a: Account, price: real, sig: SignalRow)
    requires Shaped(a)
  {
    sig.exit && TotalShares(a.shares) > 0 &&
    price >= AverageEntryPrice(a.shares, a.entryPrices) * ExitMultiple
  }

  function ExitStep(a: Account, price: real, date: Date, sig: SignalRow): (r: Account)
    requires Shaped(a)
    ensures Shaped(r)
  {
    if ExitGatePasses(a, price, sig) then ExitAll(a, price, date, 0) else a
  }

  /** Break-even reduction check: a positive average entry price, exposure
      above 0.75 and the price at least the average entry price. */
  function ReduceStep(a: Account, capital: real, price: real, date: Date): (r: Account)
    requires Shaped(a) && capital > 0.0
    ensures Shaped(r)
  {
    var avg := AverageEntryPrice(a.shares, a.entryPrices);
    if avg > 0.0 && TotalExposure(a.shares, a.entryPrices, capital) > ReductionTrigger && price >= avg
    then Reduce(a, capital, price, date)
    else a
  }

  /** Entry loop: each signalled stage from k on that holds no shares is entered. */
  function EnterFrom(a: Account, capital: real, sig: SignalRow, price: real, date: Date, k: nat): (r: Account)
    requires Shaped(a) && capital > 0.0 && price > 0.0 && |sig.entries| == NumStages && k <= NumStages
    ensures Shaped(r)
    decreases NumStages - k
  {
    if k == NumStages then a
    else if sig.entries[k] && a.shares[k] == 0 then
      EnterFrom(Enter(a, capital, k, price, date).0, capital, sig, price, date, k + 1)
    else EnterFrom(a, capital, sig, price, date, k + 1)
  }

  /** One iteration of `run_backtest`: exits, reduction, entries, snapshot. */
  function Bar(a: Account, capital: real, date: Date, price: real, sig: SignalRow): (r: Account)
    requires Shaped(a) && capital > 0.0 && price > 0.0 && |sig.entries| == NumStages
    ensures Shaped(r)
  {
    var afterExit := ExitStep(a, price, date, sig);
    var afterReduce := ReduceStep(afterExit, capital, price, date);
    var afterEntries := EnterFrom(afterReduce, capital, sig, price, date, 0);
    Record(afterEntries, capital, date, price)
  }

  /** `run_backtest` from bar t on. */
  function Backtest(a: Account, capital: real, dates: seq<Date>, closes: seq<real>,
                    signals: seq<SignalRow>, t: nat): Account
    requires Shaped(a) && capital > 0.0 && Aligned(dates, closes, signals) && t <= |closes|
    decreases |closes| - t
  {
    if t == |closes| then a
    else Backtest(Bar(a, capital, dates[t], closes[t], signals[t]), capital, dates, closes, signals, t + 1)
  }

  /** One turn of the entry loop. */
  lemma EnterFromStep(a: Account, capital: real, sig: SignalRow, price: real, date: Date, k: nat)
    requires Shaped(a) && capital > 0.0 && price > 0.0 && |sig.entries| == NumStages && k < NumStages
    ensures EnterFrom(a, capital, sig, price, date, k) ==
            EnterFrom(if sig.entries[k] && a.shares[k] == 0 then Enter(a, capital, k, price, date).0 else a,
                      capital, sig, price, date, k + 1)
  {
  }

  /** One turn of the bar loop. */
  lemma BacktestStep(a: Account, capital: real, dates: seq<Date>, closes: seq<real>,
                     signals: seq<SignalRow>, t: nat)
    requires Shaped(a) && capital > 0.0 && Aligned(dates, closes, signals) && t < |closes|
    ensures Backtest(a, capital, dates, closes, signals, t) ==
            Backtest(Bar(a, capital, dates[t], closes[t], signals[t]), capital, dates, closes, signals, t + 1)
  {
  }

  // ---------------------------------------------------------------------
  // Properties of single operations
  // ---------------------------------------------------------------------

  /** The five stage weights add up to the exposure cap. */
  lemma WeightsSumToCap()
    ensures Sum(PositionSizes) == MaxExposure
  {
  }

  /** `enter_position` accepts exactly when the exposure test and the cash
      test pass; a refused entry changes nothing; an accepted one debits
      `shares * price` (at most `initial_capital * weight`), logs one ENTER
      trade and touches no other stage. Either way the invariant survives,
      so exposure stays at most 0.90 and cash non-negative. */
  lemma EnterEffect(a: Account, capital: real, k: nat, price: real, date: Date)
    requires Inv(a, capital) && k < NumStages && price > 0.0
    ensures var (b, ok) := Enter(a, capital, k, price, date);
            var n := PositionSize(capital, k, price);
            && Inv(b, capital)
            && (ok <==> TotalExposure(a.shares, a.entryPrices, capital) + PositionSizes[k] <= MaxExposure &&
                        n as real * price <= a.cash)
            && (!ok ==> b == a)
            && (ok ==> b.cash == a.cash - n as real * price && n as real * price <= capital * PositionSizes[k])
            && (ok ==> b.shares[k] == n && b.entryPrices[k] == price && b.daily == a.daily)
            && (ok ==> b.trades == a.trades + [Trade(date, EnterKind, k, n, price, n as real * price, b.cash)])
            && (forall i :: 0 <= i < NumStages && i != k ==>
                  b.shares[i] == a.shares[i] && b.entryPrices[i] == a.entryPrices[i])
  {
    EnterKeepsInv(a, capital, k, price, date);
  }

  /** The state an accepted entry leaves. */
  lemma EnterAccepted(a: Account, capital: real, k: nat, price: real, date: Date)
    requires Shaped(a) && capital > 0.0 && k < NumStages && price > 0.0
    requires TotalExposure(a.shares, a.entryPrices, capital) + PositionSizes[k] <= MaxExposure
    requires PositionSize(capital, k, price) as real * price <= a.cash
    ensures var n := PositionSize(capital, k, price);
            var cash := a.cash - n as real * price;
            Enter(a, capital, k, price, date) ==
              (a.(cash := cash, shares := a.shares[k := n], entryPrices := a.entryPrices[k := price],
                  trades := a.trades + [Trade(date, EnterKind, k, n, price, n as real * price, cash)]), true)
  {
  }

  /** A successful entry keeps cash and entry prices non-negative and,
      through the exposure check, the cost basis within the cap. */
  lemma EnterKeepsInv(a: Account, capital: real, k: nat, price: real, date: Date)
    requires Inv(a, capital) && k < NumStages && price > 0.0
    ensures Inv(Enter(a, capital, k, price, date).0, capital)
  {
    var (b, ok) := Enter(a, capital, k, price, date);
    if ok {
      var n := PositionSize(capital, k, price);
      var cb := CostBasis(a.shares, a.entryPrices);
      CostBasisUpdate(a.shares, a.entryPrices, k, n, price);
      MulNonNegative(a.shares[k] as real, a.entryPrices[k]);
      ExposureGuard(cb, capital, PositionSizes[k]);
      assert CostBasis(b.shares, b.entryPrices) <= cb + n as real * price;
      assert n as real * price <= capital * PositionSizes[k];
    }
  }

  /** Entering a stage that holds nothing keeps the worth at the trade
      price and keeps the account solvent. */
  lemma EnterFlatKeepsWorth(a: Account, capital: real, k: nat, price: real, date: Date)
    requires Shaped(a) && capital > 0.0 && k < NumStages && price > 0.0 && a.shares[k] == 0
    ensures Worth(Enter(a, capital, k, price, date).0, price) == Worth(a, price)
    ensures Solvent(a) ==> Solvent(Enter(a, capital, k, price, date).0)
  {
    var (b, ok) := Enter(a, capital, k, price, date);
    if ok {
      var n := PositionSize(capital, k, price);
      TotalSharesUpdate(a.shares, k, n);
      MulDistributes(TotalShares(a.shares) as real, n as real, price);
      if n > 0 {
        TotalSharesAtLeast(b.shares, k);
      }
    }
  }

  /** `exit_position` keeps the invariant, empties the stage and clears
      its entry price, credits `shares * price`, logs the sale as negative
      shares, keeps the worth at the trade price and keeps solvency. */
  lemma ExitEffect(a: Account, capital: real, k: nat, price: real, date: Date)
    requires Inv(a, capital) && k < NumStages && price > 0.0
    ensures var b := Exit(a, k, price, date);
            && Inv(b, capital)
            && b.shares[k] == 0 && b.entryPrices[k] == 0.0
            && b.cash == a.cash + a.shares[k] as real * price
            && b.trades == a.trades + [Trade(date, ExitKind, k, -(a.shares[k] as int), price,
                                             a.shares[k] as real * price, b.cash)]
            && b.daily == a.daily
            && Worth(b, price) == Worth(a, price)
            && (Solvent(a) ==> Solvent(b))
  {
    ExitKeepsInv(a, capital, k, price, date);
    ExitKeepsWorth(a, k, price, date);
  }

  lemma ExitKeepsInv(a: Account, capital: real, k: nat, price: real, date: Date)
    requires Inv(a, capital) && k < NumStages && price > 0.0
    ensures Inv(Exit(a, k, price, date), capital)
  {
    CostBasisUpdate(a.shares, a.entryPrices, k, 0, 0.0);
    MulNonNegative(a.shares[k] as real, a.entryPrices[k]);
    MulNonNegative(a.shares[k] as real, price);
  }

  lemma ExitKeepsWorth(a: Account, k: nat, price: real, date: Date)
    requires Shaped(a) && a.cash >= 0.0 && k < NumStages && price > 0.0
    ensures var b := Exit(a, k, price, date);
            && Worth(b, price) == Worth(a, price)
            && (Solvent(a) ==> Solvent(b))
  {
    var b := Exit(a, k, price, date);
    TotalSharesUpdate(a.shares, k, 0);
    var n, total := a.shares[k] as real, TotalShares(a.shares) as real;
    MulNonNegative(n, price);
    MulDistributes(total, n, price);
    assert TotalShares(b.shares) as real == total - n;
    assert Worth(b, price) == a.cash + n * price + (total - n) * price;
    if a.shares[k] > 0 {
      MulStrict(0.0, n, price);
    }
  }


  // ---------------------------------------------------------------------
  // The exit loop
  // ---------------------------------------------------------------------

  /** The exit loop keeps the invariant, the worth at the trade price and
      solvency, leaves the snapshots alone and only appends trades. */
  lemma {:induction false} ExitAllKeeps(a: Account, capital: real, price: real, date: Date, k: nat)
    requires Inv(a, capital) && k <= NumStages && price > 0.0
    ensures var r := ExitAll(a, price, date, k);
            && Inv(r, capital) && Worth(r, price) == Worth(a, price)
            && (Solvent(a) ==> Solvent(r))
            && r.daily == a.daily && a.trades <= r.trades
    decreases NumStages - k
  {
    if k < NumStages {
      if a.shares[k] > 0 {
        ExitEffect(a, capital, k, price, date);
        ExitAllKeeps(Exit(a, k, price, date), capital, price, date, k + 1);
      } else {
        ExitAllKeeps(a, capital, price, date, k + 1);
      }
    }
  }

  /** The exit loop empties every stage from k on and clears the entry
      price of each one it sells; earlier stages and flat stages keep their
      entry prices. */
  lemma {:induction false} ExitAllStages(a: Account, price: real, date: Date, k: nat)
    requires Shaped(a) && k <= NumStages
    ensures var r := ExitAll(a, price, date, k);
            && (forall i :: 0 <= i < k ==> r.shares[i] == a.shares[i] && r.entryPrices[i] == a.entryPrices[i])
            && (forall i :: k <= i < NumStages ==> r.shares[i] == 0)
            && (forall i :: k <= i < NumStages ==>
                  r.entryPrices[i] == if a.shares[i] > 0 then 0.0 else a.entryPrices[i])
    decreases NumStages - k
  {
    if k < NumStages {
      var b := if a.shares[k] > 0 then Exit(a, k, price, date) else a;
      ExitTouchesStage(a, k, price, date);
      ExitAllStages(b, price, date, k + 1);
      assert ExitAll(a, price, date, k) == ExitAll(b, price, date, k + 1);
    }
  }

  /** The exit loop logs one EXIT trade per held stage from k on, in
      stage order, each selling all the stage's shares at `price`. */
  lemma {:induction false} ExitAllLog(a: Account, price: real, date: Date, k: nat)
    requires Shaped(a) && k <= NumStages
    ensures var r := ExitAll(a, price, date, k);
            && |r.trades| == |a.trades| + HeldFrom(a.shares, k)
            && a.trades <= r.trades
            && (forall j :: |a.trades| <= j < |r.trades| ==>
                  r.trades[j].kind == ExitKind && k <= r.trades[j].stage < NumStages &&
                  a.shares[r.trades[j].stage] > 0 &&
                  r.trades[j].shares == -(a.shares[r.trades[j].stage] as int) && r.trades[j].price == price)
            && (forall j, m :: |a.trades| <= j < m < |r.trades| ==> r.trades[j].stage < r.trades[m].stage)
    decreases NumStages - k
  {
    if k < NumStages {
      var b := if a.shares[k] > 0 then Exit(a, k, price, date) else a;
      ExitTouchesStage(a, k, price, date);
      ExitAllLog(b, price, date, k + 1);
      HeldFromSame(a.shares, b.shares, k + 1);
      var r := ExitAll(a, price, date, k);
      assert r == ExitAll(b, price, date, k + 1);
      assert forall j :: 0 <= j < |b.trades| ==> r.trades[j] == b.trades[j];
    }
  }

  /** `exit_position` on stage k empties that stage only and logs one EXIT
      trade selling all its shares at `price`. */
  lemma ExitTouchesStage(a: Account, k: nat, price: real, date: Date)
    requires Shaped(a) && k < NumStages
    ensures var b := Exit(a, k, price, date);
            && (forall i :: 0 <= i < NumStages && i != k ==>
                  b.shares[i] == a.shares[i] && b.entryPrices[i] == a.entryPrices[i])
            && b.shares[k] == 0 && b.entryPrices[k] == 0.0
            && |b.trades| == |a.trades| + 1 && a.trades <= b.trades
            && b.trades[|a.trades|].kind == ExitKind && b.trades[|a.trades|].stage == k
            && b.trades[|a.trades|].shares == -(a.shares[k] as int) && b.trades[|a.trades|].price == price
  {
  }

  // ---------------------------------------------------------------------
  // The reduction
  // ---------------------------------------------------------------------

  /** Each held stage gives up at most its proportional part of `to_sell`,
      so together the cuts are at most the share total times to_sell/total. */
  lemma CutsBound(s: seq<nat>, total: nat, toSell: nat)
    requires total > 0 && toSell <= total
    ensures TotalShares(Cuts(s, total, toSell)) as real <= TotalShares(s) as real * (toSell as real / total as real)
  {
    var c := Cuts(s, total, toSell);
    var q := toSell as real / total as real;
    forall i | 0 <= i < |s|
      ensures c[i] as real <= s[i] as real * q
    {
      CutBound(s, total, toSell, i);
    }
    ScaledTotalBound(s, c, q);
  }

  /** One stage's cut is at most its proportional part of `to_sell`. */
  lemma CutBound(s: seq<nat>, total: nat, toSell: nat, i: nat)
    requires total > 0 && toSell <= total && i < |s|
    ensures Cuts(s, total, toSell)[i] as real <= s[i] as real * (toSell as real / total as real)
  {
    var cut := Cuts(s, total, toSell)[i];
    var q := toSell as real / total as real;
    if s[i] > 0 {
      assert cut == ReductionFor(s[i], total, toSell);
      ReductionProportional(s[i], total, toSell);
    } else {
      assert cut == 0;
      MulNonNegative(s[i] as real, q);
    }
  }


  /** Stage-wise bounds proportional to the holdings add up to the same
      proportion of the share total. */
  lemma {:induction false} ScaledTotalBound(s: seq<nat>, c: seq<nat>, q: real)
    requires |c| == |s|
    requires forall i :: 0 <= i < |s| ==> c[i] as real <= s[i] as real * q
    ensures TotalShares(c) as real <= TotalShares(s) as real * q
  {
    if s != [] {
      assert forall i :: 0 <= i < |s| - 1 ==> s[1..][i] == s[i + 1] && c[1..][i] == c[i + 1];
      ScaledTotalBound(s[1..], c[1..], q);
      var head, rest := s[0] as real, TotalShares(s[1..]) as real;
      MulDistributes(head, rest, q);
      assert TotalShares(s) as real == head + rest;
      assert TotalShares(c) as real == c[0] as real + TotalShares(c[1..]) as real;
    }
  }


  /** Stage-wise remainders plus cuts give the holdings back, in total too. */
  lemma {:induction false} TotalSharesSplit(s: seq<nat>, c: seq<nat>, r: seq<nat>)
    requires |s| == |c| == |r|
    requires forall i :: 0 <= i < |s| ==> r[i] + c[i] == s[i]
    ensures TotalShares(r) + TotalShares(c) == TotalShares(s)
  {
    if s != [] {
      TotalSharesSplit(s[1..], c[1..], r[1..]);
    }
  }

  /** A reduction never takes a held stage down to zero. */
  lemma ReductionKeepsStage(held: nat, total: nat)
    requires 0 < held && 0 < total
    ensures ReductionFor(held, total, SharesToSell(total)) < held
  {
    var toSell := SharesToSell(total);
    var c := toSell as real / total as real;
    assert c * total as real == toSell as real;
    assert c <= ReductionAmount by {
      if c > ReductionAmount {
        MulStrict(ReductionAmount, c, total as real);
      }
    }
    MulMonotone(c, ReductionAmount, held as real);
    ReductionProportional(held, total, toSell);
  }

  /** One reduction step keeps the invariant (the cost basis only falls),
      the entry prices, the worth at the trade price and the snapshots. */
  lemma CutStageKeeps(a: Account, capital: real, price: real, date: Date, k: nat, cut: nat)
    requires Inv(a, capital) && k < NumStages && cut <= a.shares[k] && price > 0.0
    ensures var b := CutStage(a, price, date, k, cut);
            && Inv(b, capital) && b.entryPrices == a.entryPrices
            && Worth(b, price) == Worth(a, price)
            && b.daily == a.daily && a.trades <= b.trades
  {
    CutStageKeepsInv(a, capital, price, date, k, cut);
    CutStageKeepsWorth(a, price, date, k, cut);
  }

  lemma CutStageKeepsInv(a: Account, capital: real, price: real, date: Date, k: nat, cut: nat)
    requires Inv(a, capital) && k < NumStages && cut <= a.shares[k] && price > 0.0
    ensures Inv(CutStage(a, price, date, k, cut), capital)
  {
    var b := CutStage(a, price, date, k, cut);
    CostBasisUpdate(a.shares, a.entryPrices, k, a.shares[k] - cut, a.entryPrices[k]);
    assert a.entryPrices[k := a.entryPrices[k]] == a.entryPrices;
    MulMonotone((a.shares[k] - cut) as real, a.shares[k] as real, a.entryPrices[k]);
    MulNonNegative(cut as real, price);
    assert CostBasis(b.shares, b.entryPrices) <= CostBasis(a.shares, a.entryPrices);
  }

  lemma CutStageKeepsWorth(a: Account, price: real, date: Date, k: nat, cut: nat)
    requires Shaped(a) && k < NumStages && cut <= a.shares[k]
    ensures Worth(CutStage(a, price, date, k, cut), price) == Worth(a, price)
  {
    var b := CutStage(a, price, date, k, cut);
    TotalSharesUpdate(a.shares, k, a.shares[k] - cut);
    assert TotalShares(b.shares) == TotalShares(a.shares) - cut;
    MulDistributes(TotalShares(a.shares) as real, cut as real, price);
  }

  /** The reduction loop keeps the invariant, the entry prices, the worth
      at the trade price and the snapshots, and only appends trades. */
  lemma {:induction false} ReduceFromKeeps(a: Account, capital: real, price: real, date: Date,
                                           cuts: seq<nat>, k: nat)
    requires Inv(a, capital) && k <= NumStages && price > 0.0 && |cuts| == NumStages
    requires forall i :: k <= i < NumStages ==> cuts[i] <= a.shares[i]
    ensures var r := ReduceFrom(a, price, date, cuts, k);
            && Inv(r, capital) && r.entryPrices == a.entryPrices
            && Worth(r, price) == Worth(a, price)
            && r.daily == a.daily && a.trades <= r.trades
    decreases NumStages - k
  {
    if k < NumStages {
      if a.shares[k] > 0 {
        CutStageKeeps(a, capital, price, date, k, cuts[k]);
        ReduceFromKeeps(CutStage(a, price, date, k, cuts[k]), capital, price, date, cuts, k + 1);
      } else {
        ReduceFromKeeps(a, capital, price, date, cuts, k + 1);
      }
    }
  }

  /** The reduction loop takes each held stage from k on down by its cut
      and leaves every other stage alone. */
  lemma {:induction false} ReduceFromStages(a: Account, price: real, date: Date, cuts: seq<nat>, k: nat)
    requires Shaped(a) && k <= NumStages && |cuts| == NumStages
    requires forall i :: k <= i < NumStages ==> cuts[i] <= a.shares[i]
    ensures var r := ReduceFrom(a, price, date, cuts, k);
            forall i :: 0 <= i < NumStages ==>
              r.shares[i] == if k <= i && a.shares[i] > 0 then a.shares[i] - cuts[i] else a.shares[i]
    decreases NumStages - k
  {
    if k < NumStages {
      var b := if a.shares[k] > 0 then CutStage(a, price, date, k, cuts[k]) else a;
      ReduceFromStages(b, price, date, cuts, k + 1);
    }
  }

  /** The reduction loop logs one REDUCE trade per held stage from k on,
      in stage order, each selling that stage's cut (possibly zero) at
      `price`. */
  lemma {:induction false} ReduceFromLog(a: Account, price: real, date: Date, cuts: seq<nat>, k: nat)
    requires Shaped(a) && k <= NumStages && |cuts| == NumStages
    requires forall i :: k <= i < NumStages ==> cuts[i] <= a.shares[i]
    ensures var r := ReduceFrom(a, price, date, cuts, k);
            && |r.trades| == |a.trades| + HeldFrom(a.shares, k)
            && a.trades <= r.trades
            && (forall j :: |a.trades| <= j < |r.trades| ==>
                  r.trades[j].kind == ReduceKind && k <= r.trades[j].stage < NumStages &&
                  a.shares[r.trades[j].stage] > 0 &&
                  r.trades[j].shares == -(cuts[r.trades[j].stage] as int) && r.trades[j].price == price)
            && (forall j, m :: |a.trades| <= j < m < |r.trades| ==> r.trades[j].stage < r.trades[m].stage)
    decreases NumStages - k
  {
    if k < NumStages {
      var b := if a.shares[k] > 0 then CutStage(a, price, date, k, cuts[k]) else a;
      if a.shares[k] > 0 {
        CutTouchesStage(a, price, date, k, cuts[k]);
      }
      ReduceFromLog(b, price, date, cuts, k + 1);
      HeldFromSame(a.shares, b.shares, k + 1);
      var r := ReduceFrom(a, price, date, cuts, k);
      assert r == ReduceFrom(b, price, date, cuts, k + 1);
      assert forall j :: 0 <= j < |b.trades| ==> r.trades[j] == b.trades[j];
    }
  }

  /** One cut touches the shares of stage k only and logs one REDUCE trade
      selling `cut` shares at `price`. */
  lemma CutTouchesStage(a: Account, price: real, date: Date, k: nat, cut: nat)
    requires Shaped(a) && k < NumStages && cut <= a.shares[k]
    ensures var b := CutStage(a, price, date, k, cut);
            && (forall i :: 0 <= i < NumStages && i != k ==> b.shares[i] == a.shares[i])
            && |b.trades| == |a.trades| + 1 && a.trades <= b.trades
            && b.trades[|a.trades|].kind == ReduceKind && b.trades[|a.trades|].stage == k
            && b.trades[|a.trades|].shares == -(cut as int) && b.trades[|a.trades|].price == price
  {
  }

  /** `reduce_position` keeps the invariant, the entry prices, the worth at
      the trade price and solvency, and only appends trades. */
  lemma ReduceKeeps(a: Account, capital: real, price: real, date: Date)
    requires Inv(a, capital) && price > 0.0
    ensures var r := Reduce(a, capital, price, date);
            && Inv(r, capital) && r.entryPrices == a.entryPrices
            && Worth(r, price) == Worth(a, price)
            && (Solvent(a) ==> Solvent(r))
            && r.daily == a.daily && a.trades <= r.trades
  {
    if TotalExposure(a.shares, a.entryPrices, capital) > ReductionTrigger {
      ExposedHasShares(a.shares, a.entryPrices, capital);
      var total := TotalShares(a.shares);
      ReduceFromKeeps(a, capital, price, date, Cuts(a.shares, total, SharesToSell(total)), 0);
      ReduceSells(a, capital, price, date);
      var i := HeldStage(a.shares);
      TotalSharesAtLeast(Reduce(a, capital, price, date).shares, i);
    }
  }

  /** Above the 0.75 trigger, `reduce_position` sells at most
      `int(0.10 * total_shares)` shares, leaves every held stage with at
      least one share and every flat stage flat, and logs one REDUCE trade
      per held stage, none of them a purchase; at 0.75 or below it changes
      nothing. */
  lemma ReduceSells(a: Account, capital: real, price: real, date: Date)
    requires Shaped(a) && capital > 0.0
    ensures var r := Reduce(a, capital, price, date);
            && (TotalExposure(a.shares, a.entryPrices, capital) <= ReductionTrigger ==> r == a)
            && TotalShares(r.shares) <= TotalShares(a.shares)
            && TotalShares(a.shares) - TotalShares(r.shares) <= SharesToSell(TotalShares(a.shares))
            && (forall i :: 0 <= i < NumStages && a.shares[i] > 0 ==> 1 <= r.shares[i] <= a.shares[i])
            && (forall i :: 0 <= i < NumStages && a.shares[i] == 0 ==> r.shares[i] == 0)
            && (TotalExposure(a.shares, a.entryPrices, capital) > ReductionTrigger ==>
                  |r.trades| == |a.trades| + HeldFrom(a.shares, 0) &&
                  forall j :: |a.trades| <= j < |r.trades| ==>
                    r.trades[j].kind == ReduceKind && r.trades[j].shares <= 0)
            && (TotalExposure(a.shares, a.entryPrices, capital) > ReductionTrigger ==>
                  TotalShares(a.shares) - TotalShares(r.shares) + HeldFrom(a.shares, 0) >
                  SharesToSell(TotalShares(a.shares)))
  {
    if TotalExposure(a.shares, a.entryPrices, capital) > ReductionTrigger {
      ExposedHasShares(a.shares, a.entryPrices, capital);
      var total := TotalShares(a.shares);
      var toSell := SharesToSell(total);
      var cuts := Cuts(a.shares, total, toSell);
      var r := Reduce(a, capital, price, date);
      assert r == ReduceFrom(a, price, date, cuts, 0);
      CutsSell(a.shares, total);
      ReduceFromStages(a, price, date, cuts, 0);
      ReduceFromLog(a, price, date, cuts, 0);
      TotalSharesSplit(a.shares, cuts, r.shares);
      CutsAtLeast(a.shares, total, toSell);
    }
  }

  /** The cuts of a reduction sell at most `int(0.10 * total_shares)`
      shares together, leave every held stage at least one share and take
      nothing from a flat stage. */
  lemma CutsSell(s: seq<nat>, total: nat)
    requires total == TotalShares(s) && total > 0
    ensures var c := Cuts(s, total, SharesToSell(total));
            && TotalShares(c) <= SharesToSell(total)
            && (forall i :: 0 <= i < |s| && s[i] > 0 ==> c[i] < s[i])
            && (forall i :: 0 <= i < |s| && s[i] == 0 ==> c[i] == 0)
  {
    CutsTotal(s, total, SharesToSell(total));
    forall i | 0 <= i < |s| && s[i] > 0
      ensures Cuts(s, total, SharesToSell(total))[i] < s[i]
    {
      ReductionKeepsStage(s[i], total);
    }
  }

  /** Each held stage's cut is the floor of its proportional part, so the
      cuts fall short of `to_sell` by less than one share per held stage. */
  lemma CutsAtLeast(s: seq<nat>, total: nat, toSell: nat)
    requires total == TotalShares(s) && total > 0 && toSell <= total
    ensures TotalShares(Cuts(s, total, toSell)) + HeldFrom(s, 0) > toSell
  {
    var c := Cuts(s, total, toSell);
    CutsFloor(s, total, toSell);
    FloorsFrom(s, c, total, toSell, 0);
    assert s[0..] == s && c[0..] == c;
    ScaledStrict(TotalShares(c) + HeldFrom(s, 0), toSell, total, HeldFrom(s, 0));
  }

  lemma ScaledStrict(x: int, n: int, t: int, h: int)
    requires t > 0 && h > 0 && x * t >= t * n + h
    ensures x > n
  {
  }

  /** The sum of the floor bounds over the stages from k on; some stage
      from k on is held when the shares from k on are not all zero. */
  lemma {:induction false} FloorsFrom(s: seq<nat>, c: seq<nat>, total: nat, toSell: nat, k: nat)
    requires |c| == |s| && total > 0 && k <= |s|
    requires forall i :: 0 <= i < |s| && s[i] == 0 ==> c[i] == 0
    requires forall i :: 0 <= i < |s| && s[i] > 0 ==> s[i] * toSell < (c[i] + 1) * total
    ensures (TotalShares(c[k..]) + HeldFrom(s, k)) * total >= TotalShares(s[k..]) * toSell + HeldFrom(s, k)
    ensures TotalShares(s[k..]) > 0 ==> HeldFrom(s, k) > 0
    decreases |s| - k
  {
    if k < |s| {
      FloorsFrom(s, c, total, toSell, k + 1);
      assert s[k..][1..] == s[k + 1..] && c[k..][1..] == c[k + 1..];
      var h := if s[k] > 0 then 1 else 0;
      if s[k] > 0 {
        assert (c[k] + h) * total >= s[k] * toSell + h;
      } else {
        assert c[k] == 0;
      }
      StageFloorSum(c[k], h, s[k], TotalShares(c[k + 1..]), HeldFrom(s, k + 1), TotalShares(s[k + 1..]),
                    total, toSell);
    }
  }

  /** Adding the bound of one stage to the bound of the rest. */
  lemma StageFloorSum(ck: int, hk: int, sk: int, rc: int, rh: int, rs: int, t: int, n: int)
    requires (ck + hk) * t >= sk * n + hk
    requires (rc + rh) * t >= rs * n + rh
    ensures (ck + rc + hk + rh) * t >= (sk + rs) * n + hk + rh
  {
    assert (ck + rc + hk + rh) * t == (ck + hk) * t + (rc + rh) * t;
    assert (sk + rs) * n == sk * n + rs * n;
  }

  /** Together the cuts sell at most `to_sell` shares. */
  lemma CutsTotal(s: seq<nat>, total: nat, toSell: nat)
    requires total == TotalShares(s) && total > 0 && toSell <= total
    ensures TotalShares(Cuts(s, total, toSell)) <= toSell
  {
    var c := Cuts(s, total, toSell);
    CutsFloor(s, total, toSell);
    forall i | 0 <= i < |s|
      ensures c[i] * total <= s[i] * toSell
    {
      if s[i] == 0 {
        assert c[i] == 0;
      }
    }
    FloorTotal(s, c, total, toSell);
    ScaledAtMost(TotalShares(c), toSell, total);
  }

  /** Stage-wise bounds `c[i] * t <= s[i] * n` add up over the stages. */
  lemma {:induction false} FloorTotal(s: seq<nat>, c: seq<nat>, t: nat, n: nat)
    requires |c| == |s|
    requires forall i :: 0 <= i < |s| ==> c[i] * t <= s[i] * n
    ensures TotalShares(c) * t <= TotalShares(s) * n
  {
    if s != [] {
      FloorTotal(s[1..], c[1..], t, n);
      StageSum(c[0], s[0], TotalShares(c[1..]), TotalShares(s[1..]), t, n);
    }
  }

  lemma StageSum(ck: int, sk: int, rc: int, rs: int, t: int, n: int)
    requires ck * t <= sk * n && rc * t <= rs * n
    ensures (ck + rc) * t <= (sk + rs) * n
  {
    assert (ck + rc) * t == ck * t + rc * t;
    assert (sk + rs) * n == sk * n + rs * n;
  }

  lemma ScaledAtMost(x: int, n: int, t: int)
    requires t > 0 && x * t <= t * n
    ensures x <= n
  {
  }


  // ---------------------------------------------------------------------
  // The entry loop
  // ---------------------------------------------------------------------

  /** The entry loop keeps the invariant, the worth at the trade price and
      solvency, leaves the snapshots alone and only appends trades. */
  lemma {:induction false} EnterFromKeeps(a: Account, capital: real, sig: SignalRow, price: real,
                                          date: Date, k: nat)
    requires Inv(a, capital) && price > 0.0 && |sig.entries| == NumStages && k <= NumStages
    ensures var r := EnterFrom(a, capital, sig, price, date, k);
            && Inv(r, capital) && Worth(r, price) == Worth(a, price)
            && (Solvent(a) ==> Solvent(r))
            && r.daily == a.daily && a.trades <= r.trades
    decreases NumStages - k
  {
    if k < NumStages {
      if sig.entries[k] && a.shares[k] == 0 {
        EnterEffect(a, capital, k, price, date);
        EnterFlatKeepsWorth(a, capital, k, price, date);
        EnterFromKeeps(Enter(a, capital, k, price, date).0, capital, sig, price, date, k + 1);
      } else {
        EnterFromKeeps(a, capital, sig, price, date, k + 1);
      }
    }
  }

  /** The entry loop never touches a stage before k, a stage that holds
      shares (a held stage is never re-entered) or a stage without its
      signal; it logs only ENTER trades, each for a signalled stage from k
      on that held nothing. */
  lemma {:induction false} EnterFromStages(a: Account, capital: real, sig: SignalRow, price: real,
                                           date: Date, k: nat)
    requires Shaped(a) && capital > 0.0 && price > 0.0 && |sig.entries| == NumStages && k <= NumStages
    ensures var r := EnterFrom(a, capital, sig, price, date, k);
            && (forall i :: 0 <= i < NumStages && (i < k || a.shares[i] > 0 || !sig.entries[i]) ==>
                  r.shares[i] == a.shares[i] && r.entryPrices[i] == a.entryPrices[i])
            && a.trades <= r.trades
            && (forall j :: |a.trades| <= j < |r.trades| ==>
                  r.trades[j].kind == EnterKind && k <= r.trades[j].stage < NumStages &&
                  sig.entries[r.trades[j].stage] && a.shares[r.trades[j].stage] == 0 &&
                  r.trades[j].price == price)
    decreases NumStages - k
  {
    if k < NumStages {
      var b := if sig.entries[k] && a.shares[k] == 0 then Enter(a, capital, k, price, date).0 else a;
      EnterTouchesStage(a, capital, k, price, date);
      EnterFromStages(b, capital, sig, price, date, k + 1);
      var r := EnterFrom(a, capital, sig, price, date, k);
      assert r == EnterFrom(b, capital, sig, price, date, k + 1);
      assert forall j :: 0 <= j < |b.trades| ==> r.trades[j] == b.trades[j];
    }
  }

  /** `enter_position` on stage k touches no other stage and logs at most
      one ENTER trade, for stage k at `price`. */
  lemma EnterTouchesStage(a: Account, capital: real, k: nat, price: real, date: Date)
    requires Shaped(a) && capital > 0.0 && k < NumStages && price > 0.0
    ensures var b := Enter(a, capital, k, price, date).0;
            && (forall i :: 0 <= i < NumStages && i != k ==>
                  b.shares[i] == a.shares[i] && b.entryPrices[i] == a.entryPrices[i])
            && a.trades <= b.trades
            && (forall j :: |a.trades| <= j < |b.trades| ==>
                  b.trades[j].kind == EnterKind && b.trades[j].stage == k && b.trades[j].price == price)
  {
  }

  // ---------------------------------------------------------------------
  // Properties of a bar and of the backtest
  // ---------------------------------------------------------------------

  /** When the exit gate passes, every stage ends the exit step with no shares. */
  lemma ExitStepFlattens(a: Account, price: real, date: Date, sig: SignalRow)
    requires Shaped(a) && ExitGatePasses(a, price, sig)
    ensures forall i :: 0 <= i < NumStages ==> ExitStep(a, price, date, sig).shares[i] == 0
  {
    ExitAllStages(a, price, date, 0);
  }

  /** A snapshot as `record_daily_position` writes it for an account that
      keeps the invariant: value is cash plus shares at the close, cash not
      negative, exposure at most 0.90, value positive. */
  ghost predicate SnapshotSound(s: Snapshot)
  {
    s.portfolioValue == s.cash + s.totalShares as real * s.price &&
    s.cash >= 0.0 && 0.0 <= s.exposure <= MaxExposure && s.price > 0.0 && s.portfolioValue > 0.0
  }

  /** The gated exit keeps the invariant, the worth at the close and
      solvency, leaves the snapshots alone and only appends trades. */
  lemma ExitStepKeeps(a: Account, capital: real, date: Date, price: real, sig: SignalRow)
    requires Inv(a, capital) && Solvent(a) && price > 0.0
    ensures var r := ExitStep(a, price, date, sig);
            && Inv(r, capital) && Solvent(r) && Worth(r, price) == Worth(a, price)
            && r.daily == a.daily && a.trades <= r.trades
  {
    ExitAllKeeps(a, capital, price, date, 0);
  }

  /** The break-even reduction step keeps the invariant, the worth at the
      close and solvency, leaves the snapshots alone and only appends trades. */
  lemma ReduceStepKeeps(a: Account, capital: real, date: Date, price: real)
    requires Inv(a, capital) && Solvent(a) && price > 0.0
    ensures var r := ReduceStep(a, capital, price, date);
            && Inv(r, capital) && Solvent(r) && Worth(r, price) == Worth(a, price)
            && r.daily == a.daily && a.trades <= r.trades
  {
    ReduceKeeps(a, capital, price, date);
  }

  /** `record_daily_position` on an account that keeps the invariant and is
      solvent appends one sound snapshot worth the account at the close and
      changes nothing else. */
  lemma RecordSound(a: Account, capital: real, date: Date, price: real)
    requires Inv(a, capital) && Solvent(a) && price > 0.0
    ensures var r := Record(a, capital, date, price);
            && r == a.(daily := r.daily)
            && |r.daily| == |a.daily| + 1 && r.daily[..|a.daily|] == a.daily
            && r.daily[|a.daily|].date == date && r.daily[|a.daily|].price == price
            && r.daily[|a.daily|].portfolioValue == Worth(a, price)
            && SnapshotSound(r.daily[|a.daily|])
  {
    InvBoundsExposure(a, capital);
    MulNonNegative(TotalShares(a.shares) as real, price);
    if TotalShares(a.shares) > 0 {
      MulStrict(0.0, TotalShares(a.shares) as real, price);
    }
  }

  /** One bar keeps the invariant and solvency, only appends trades, and
      appends exactly one snapshot: a sound one, for that date and close,
      whose value is the worth carried into the bar. */
  lemma BarEffect(a: Account, capital: real, date: Date, price: real, sig: SignalRow)
    requires Inv(a, capital) && Solvent(a) && price > 0.0 && |sig.entries| == NumStages
    ensures var r := Bar(a, capital, date, price, sig);
            && Inv(r, capital) && Solvent(r)
            && a.trades <= r.trades
            && |r.daily| == |a.daily| + 1 && r.daily[..|a.daily|] == a.daily
            && r.daily[|a.daily|].date == date && r.daily[|a.daily|].price == price
            && r.daily[|a.daily|].portfolioValue == Worth(a, price)
            && SnapshotSound(r.daily[|a.daily|])
  {
    var a1 := ExitStep(a, price, date, sig);
    ExitStepKeeps(a, capital, date, price, sig);
    var a2 := ReduceStep(a1, capital, price, date);
    ReduceStepKeeps(a1, capital, date, price);
    var a3 := EnterFrom(a2, capital, sig, price, date, 0);
    EnterFromKeeps(a2, capital, sig, price, date, 0);
    RecordSound(a3, capital, date, price);
    assert Bar(a, capital, date, price, sig) == Record(a3, capital, date, price);
  }

  /** r continues a over `bars` bars starting at bar t: the invariant and
      solvency hold, trades were only appended, and exactly one snapshot
      per bar was appended, each sound and carrying its bar's date and close. */
  ghost predicate Extends(a: Account, r: Account, capital: real, dates: seq<Date>, closes: seq<real>,
                          t: nat, bars: nat)
  {
    Inv(r, capital) && Solvent(r) && a.trades <= r.trades &&
    |dates| == |closes| && t + bars <= |closes| &&
    |r.daily| == |a.daily| + bars && r.daily[..|a.daily|] == a.daily &&
    forall i :: |a.daily| <= i < |r.daily| ==>
      SnapshotSound(r.daily[i]) && r.daily[i].date == dates[t + i - |a.daily|] &&
      r.daily[i].price == closes[t + i - |a.daily|]
  }

  /** Continuing over m bars and then over n more is continuing over m + n. */
  lemma ExtendsTrans(a: Account, b: Account, r: Account, capital: real, dates: seq<Date>, closes: seq<real>,
                     t: nat, m: nat, n: nat)
    requires Extends(a, b, capital, dates, closes, t, m)
    requires Extends(b, r, capital, dates, closes, t + m, n)
    ensures Extends(a, r, capital, dates, closes, t, m + n)
  {
    assert r.daily[..|a.daily|] == r.daily[..|b.daily|][..|a.daily|];
    forall i | |a.daily| <= i < |r.daily|
      ensures SnapshotSound(r.daily[i]) && r.daily[i].date == dates[t + i - |a.daily|]
      ensures r.daily[i].price == closes[t + i - |a.daily|]
    {
      if i < |b.daily| {
        assert r.daily[i] == r.daily[..|b.daily|][i];
      }
    }
  }

  /** One bar continues the account over one bar. */
  lemma BarExtends(a: Account, capital: real, dates: seq<Date>, closes: seq<real>, signals: seq<SignalRow>,
                   t: nat)
    requires Inv(a, capital) && Solvent(a) && Aligned(dates, closes, signals) && t < |closes|
    ensures Extends(a, Bar(a, capital, dates[t], closes[t], signals[t]), capital, dates, closes, t, 1)
  {
    BarEffect(a, capital, dates[t], closes[t], signals[t]);
  }

  /** The backtest from bar t on continues the account over the remaining
      bars. */
  lemma {:induction false} BacktestEffect(a: Account, capital: real, dates: seq<Date>, closes: seq<real>,
                                          signals: seq<SignalRow>, t: nat)
    requires Inv(a, capital) && Solvent(a) && Aligned(dates, closes, signals) && t <= |closes|
    ensures Extends(a, Backtest(a, capital, dates, closes, signals, t), capital, dates, closes, t, |closes| - t)
    decreases |closes| - t
  {
    if t < |closes| {
      var b := Bar(a, capital, dates[t], closes[t], signals[t]);
      BarExtends(a, capital, dates, closes, signals, t);
      BacktestEffect(b, capital, dates, closes, signals, t + 1);
      var r := Backtest(b, capital, dates, closes, signals, t + 1);
      ExtendsTrans(a, b, r, capital, dates, closes, t, 1, |closes| - (t + 1));
      assert Backtest(a, capital, dates, closes, signals, t) == r;
    } else {
      assert a.daily[..|a.daily|] == a.daily;
    }
  }

  /** A fresh backtest has one snapshot per bar, and its first snapshot is
      worth exactly the initial capital: the first bar's trades all happen
      at its close. */
  lemma FirstSnapshotIsCapital(capital: real, dates: seq<Date>, closes: seq<real>, signals: seq<SignalRow>)
    requires capital > 0.0 && Aligned(dates, closes, signals) && |closes| > 0
    ensures |Backtest(Initial(capital), capital, dates, closes, signals, 0).daily| == |closes|
    ensures Backtest(Initial(capital), capital, dates, closes, signals, 0).daily[0].portfolioValue == capital
  {
    var a := Initial(capital);
    InitialSound(capital);
    var b := Bar(a, capital, dates[0], closes[0], signals[0]);
    BarEffect(a, capital, dates[0], closes[0], signals[0]);
    assert |b.daily| == 1 && b.daily[0].portfolioValue == capital;
    BacktestStep(a, capital, dates, closes, signals, 0);
    BacktestPrefix(b, capital, dates, closes, signals, 1);
    var r := Backtest(b, capital, dates, closes, signals, 1);
    assert r.daily[0] == r.daily[..1][0];
  }

  /** A fresh account satisfies the invariant and is worth its cash at any
      price. */
  lemma InitialSound(capital: real)
    requires capital > 0.0
    ensures Inv(Initial(capital), capital) && Solvent(Initial(capital))
    ensures |Initial(capital).daily| == 0
    ensures forall price :: Worth(Initial(capital), price) == capital
  {
    var a := Initial(capital);
    assert TotalShares(a.shares) == 0;
    CostBasisOfNoShares(a.shares, a.entryPrices);
  }

  /** The backtest from bar t on appends one snapshot per remaining bar and
      keeps the earlier ones. */
  lemma BacktestPrefix(a: Account, capital: real, dates: seq<Date>, closes: seq<real>,
                       signals: seq<SignalRow>, t: nat)
    requires Inv(a, capital) && Solvent(a) && Aligned(dates, closes, signals) && t <= |closes|
    ensures var r := Backtest(a, capital, dates, closes, signals, t);
            |r.daily| == |a.daily| + |closes| - t && r.daily[..|a.daily|] == a.daily
  {
    BacktestEffect(a, capital, dates, closes, signals, t);
  }


  // ---------------------------------------------------------------------
  // The class
  // ---------------------------------------------------------------------

  class PositionManager {
    const initialCapital: real
    const dates: seq<Date>
    const closes: seq<real>
    const signals: seq<SignalRow>
    var cash: real
    var activePositions: seq<nat>
    var entryPrices: seq<real>
    var trades: seq<Trade>
    var dailyPositions: seq<Snapshot>

    /** The fields as an `Account` value. */
    function State(): Account
      reads this
    {
      Account(cash, activePositions, entryPrices, trades, dailyPositions)
    }

    ghost predicate Valid()
      reads this
    {
      Inv(State(), initialCapital) && Aligned(dates, closes, signals)
    }

    /** `__init__`: price data and signals as aligned columns, cash equal to
        the initial capital, five empty stages, empty logs. */
    constructor (dates: seq<Date>, closes: seq<real>, signals: seq<SignalRow>,
                 initialCapital: real := DefaultInitialCapital)
      requires initialCapital > 0.0 && Aligned(dates, closes, signals)
      ensures Valid() && State() == Initial(initialCapital)
      ensures this.initialCapital == initialCapital && this.dates == dates
      ensures this.closes == closes && this.signals == signals
    {
      this.initialCapital := initialCapital;
      this.dates := dates;
      this.closes := closes;
      this.signals := signals;
      cash := initialCapital;
      activePositions := [0, 0, 0, 0, 0];
      entryPrices := [0.0, 0.0, 0.0, 0.0, 0.0];
      trades := [];
      dailyPositions := [];
      new;
      assert TotalShares(activePositions) == 0;
      CostBasisOfNoShares(activePositions, entryPrices);
    }

    /** `enter_position`. */
    method EnterPosition(k: nat, price: real, date: Date) returns (ok: bool)
      requires Valid() && k < NumStages && price > 0.0
      modifies this
      ensures Valid()
      ensures (State(), ok) == Enter(old(State()), initialCapital, k, price, date)
    {
      ghost var start := State();
      EnterKeepsInv(start, initialCapital, k, price, date);
      if TotalExposure(activePositions, entryPrices, initialCapital) + PositionSizes[k] > MaxExposure {
        assert Enter(start, initialCapital, k, price, date) == (start, false);
        return false;
      }
      var shares := PositionSize(initialCapital, k, price);
      var positionCost := shares as real * price;
      if positionCost > cash {
        assert Enter(start, initialCapital, k, price, date) == (start, false);
        return false;
      }
      EnterAccepted(start, initialCapital, k, price, date);
      activePositions := activePositions[k := shares];
      entryPrices := entryPrices[k := price];
      cash := cash - positionCost;
      trades := trades + [Trade(date, EnterKind, k, shares, price, positionCost, cash)];
      ok := true;
      ghost var e := Enter(start, initialCapital, k, price, date).0;
      assert e.cash == cash;
      assert e.shares == activePositions;
      assert e.entryPrices == entryPrices;
      assert e.trades == trades;
      assert e.daily == dailyPositions;
    }

    /** `exit_position`; it always reports success. */
    method ExitPosition(k: nat, price: real, date: Date) returns (ok: bool)
      requires Valid() && k < NumStages && price > 0.0
      modifies this
      ensures Valid() && ok
      ensures State() == Exit(old(State()), k, price, date)
    {
      ghost var start := State();
      ExitEffect(start, initialCapital, k, price, date);
      ghost var e := Exit(start, k, price, date);
      var shares := activePositions[k];
      var proceeds := shares as real * price;
      activePositions := activePositions[k := 0];
      entryPrices := entryPrices[k := 0.0];
      cash := cash + proceeds;
      trades := trades + [Trade(date, ExitKind, k, -(shares as int), price, proceeds, cash)];
      ok := true;
      assert e.cash == cash;
      assert e.shares == activePositions;
      assert e.entryPrices == entryPrices;
      assert e.trades == trades;
      assert e.daily == dailyPositions;
    }

    /** `reduce_position` with the default reduction amount of 10 %. */
    method ReducePosition(currentPrice: real, date: Date)
      requires Valid() && currentPrice > 0.0
      modifies this
      ensures Valid()
      ensures State() == Reduce(old(State()), initialCapital, currentPrice, date)
    {
      ghost var start := State();
      if TotalExposure(activePositions, entryPrices, initialCapital) > ReductionTrigger {
        ExposedHasShares(activePositions, entryPrices, initialCapital);
        var totalShares := TotalShares(activePositions);
        var sharesToSell := SharesToSell(totalShares);
        ghost var cuts := Cuts(start.shares, totalShares, sharesToSell);
        var k := 0;
        while k < NumStages
          invariant 0 <= k <= NumStages
          invariant Shaped(State())
          invariant forall i :: k <= i < NumStages ==> activePositions[i] == start.shares[i]
          invariant ReduceFrom(State(), currentPrice, date, cuts, k) == ReduceFrom(start, currentPrice, date, cuts, 0)
        {
          if activePositions[k] > 0 {
            var shareReduction := ReductionFor(activePositions[k], totalShares, sharesToSell);
            assert shareReduction == cuts[k];
            SellCut(k, shareReduction, currentPrice, date);
          }
          k := k + 1;
        }
        assert State() == ReduceFrom(start, currentPrice, date, cuts, 0);
      }
      ReduceKeeps(start, initialCapital, currentPrice, date);
    }

    /** One pass of the loop of `reduce_position`: stage k sells `cut`
        shares at `price`, and the REDUCE trade is logged. */
    method SellCut(k: nat, cut: nat, price: real, date: Date)
      requires Shaped(State()) && k < NumStages && cut <= activePositions[k]
      modifies this
      ensures State() == CutStage(old(State()), price, date, k, cut)
    {
      activePositions := activePositions[k := activePositions[k] - cut];
      var proceeds := cut as real * price;
      cash := cash + proceeds;
      trades := trades + [Trade(date, ReduceKind, k, -(cut as int), price, proceeds, cash)];
    }

    /** `record_daily_position`. */
    method RecordDailyPosition(date: Date, currentPrice: real)
      requires Valid()
      modifies this
      ensures Valid()
      ensures State() == Record(old(State()), initialCapital, date, currentPrice)
    {
      ghost var start := State();
      var totalShares := TotalShares(activePositions);
      var totalPositionValue := totalShares as real * currentPrice;
      dailyPositions := dailyPositions + [Snapshot(date, cash + totalPositionValue, cash,
                                                   TotalExposure(activePositions, entryPrices, initialCapital),
                                                   totalShares, currentPrice)];
      ghost var r := Record(start, initialCapital, date, currentPrice);
      assert r.daily[|start.daily|] == dailyPositions[|start.daily|];
      assert r.daily == dailyPositions;
    }

    /** The exit check of `run_backtest`: on an Exit signal with shares
        held and the close at least 1.20 times the average entry price,
        every held stage is exited in stage order. */
    method CheckExits(currentPrice: real, date: Date, sig: SignalRow)
      requires Valid() && currentPrice > 0.0
      modifies this
      ensures Valid()
      ensures State() == ExitStep(old(State()), currentPrice, date, sig)
    {
      ghost var before := State();
      if sig.exit && TotalShares(activePositions) > 0 {
        var avgEntry := AverageEntryPrice(activePositions, entryPrices);
        if currentPrice >= avgEntry * ExitMultiple {
          assert ExitStep(before, currentPrice, date, sig) == ExitAll(before, currentPrice, date, 0);
          ExitEveryStage(currentPrice, date);
          return;
        }
      }
      assert ExitStep(before, currentPrice, date, sig) == before;
    }

    /** The loop of the exit check: each stage that holds shares, in stage
        order, is exited at `currentPrice`. */
    method ExitEveryStage(currentPrice: real, date: Date)
      requires Valid() && currentPrice > 0.0
      modifies this
      ensures Valid()
      ensures State() == ExitAll(old(State()), currentPrice, date, 0)
    {
      ghost var before := State();
      var k := 0;
      while k < NumStages
        invariant 0 <= k <= NumStages
        invariant Valid()
        invariant ExitAll(State(), currentPrice, date, k) == ExitAll(before, currentPrice, date, 0)
      {
        if activePositions[k] > 0 {
          var _ := ExitPosition(k, currentPrice, date);
        }
        k := k + 1;
      }
    }

    /** The break-even check of `run_backtest`: with a positive average
        entry price, exposure above 0.75 and the close at least the average
        entry price, the position is reduced. */
    method CheckReduction(currentPrice: real, date: Date)
      requires Valid() && currentPrice > 0.0
      modifies this
      ensures Valid()
      ensures State() == ReduceStep(old(State()), initialCapital, currentPrice, date)
    {
      var avgEntry := AverageEntryPrice(activePositions, entryPrices);
      if avgEntry > 0.0 && TotalExposure(activePositions, entryPrices, initialCapital) > ReductionTrigger {
        if currentPrice >= avgEntry {
          ReducePosition(currentPrice, date);
        }
      }
    }

    /** The entry check of `run_backtest`: every signalled stage that holds
        no shares is entered, in stage order. */
    method CheckEntries(currentPrice: real, date: Date, sig: SignalRow)
      requires Valid() && currentPrice > 0.0 && |sig.entries| == NumStages
      modifies this
      ensures Valid()
      ensures State() == EnterFrom(old(State()), initialCapital, sig, currentPrice, date, 0)
    {
      ghost var before := State();
      var k := 0;
      while k < NumStages
        invariant 0 <= k <= NumStages
        invariant Valid()
        invariant EnterFrom(State(), initialCapital, sig, currentPrice, date, k) ==
                  EnterFrom(before, initialCapital, sig, currentPrice, date, 0)
      {
        EnterFromStep(State(), initialCapital, sig, currentPrice, date, k);
        if sig.entries[k] && activePositions[k] == 0 {
          var _ := EnterPosition(k, currentPrice, date);
        }
        k := k + 1;
      }
    }

    /** `run_backtest`: for each bar, the gated exit of all stages, the
        break-even reduction, the entries into flat signalled stages, and the
        snapshot; returns the trade log and the snapshots. */
    method RunBacktest() returns (tradesDf: seq<Trade>, positionsDf: seq<Snapshot>)
      requires Valid()
      modifies this
      ensures Valid()
      ensures State() == Backtest(old(State()), initialCapital, dates, closes, signals, 0)
      ensures tradesDf == trades && positionsDf == dailyPositions
    {
      ghost var target := Backtest(State(), initialCapital, dates, closes, signals, 0);
      var t := 0;
      while t < |closes|
        invariant 0 <= t <= |closes|
        invariant Valid()
        invariant Backtest(State(), initialCapital, dates, closes, signals, t) == target
      {
        ghost var before := State();
        ProcessBar(dates[t], closes[t], signals[t]);
        BacktestStep(before, initialCapital, dates, closes, signals, t);
        t := t + 1;
      }
      tradesDf, positionsDf := trades, dailyPositions;
    }

    /** One iteration of the loop of `run_backtest`. */
    method ProcessBar(date: Date, currentPrice: real, sig: SignalRow)
      requires Valid() && currentPrice > 0.0 && |sig.entries| == NumStages
      modifies this
      ensures Valid()
      ensures State() == Bar(old(State()), initialCapital, date, currentPrice, sig)
    {
      ghost var before := State();
      CheckExits(currentPrice, date, sig);
      ghost var afterExit := State();
      CheckReduction(currentPrice, date);
      ghost var afterReduce := State();
      CheckEntries(currentPrice, date, sig);
      ghost var afterEntries := State();
      RecordDailyPosition(date, currentPrice);
      assert afterExit == ExitStep(before, currentPrice, date, sig);
      assert afterReduce == ReduceStep(afterExit, initialCapital, currentPrice, date);
      assert afterEntries == EnterFrom(afterReduce, initialCapital, sig, currentPrice, date, 0);
    }
  }
}
