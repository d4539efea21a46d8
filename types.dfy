/** Shared vocabulary: pandas' missing value (NaN) as Option, raised
    exceptions as Result, and the sums and extremes of real columns that
    the tracker and the analyzer aggregate. */
module Types {

  /** A cell that may be NaN. */
  datatype Option<+T> = None | Some(value: T)

  /** The outcome of an operation that may raise. */
  datatype Result<+T> = Ok(value: T) | Err(message: string)

  /** Trading dates are kept abstract: a day number. */
  type Date = int

  /** Sum of a column. */
  function Sum(xs: seq<real>): real
  {
    if xs == [] then 0.0 else xs[0] + Sum(xs[1..])
  }

  /** Sum of a column whose entries are all negative is negative (if any). */
  lemma {:induction false} SumNegative(xs: seq<real>)
    requires |xs| > 0
    requires forall i :: 0 <= i < |xs| ==> xs[i] < 0.0
    ensures Sum(xs) < 0.0
  {
    if |xs| > 1 {
      SumNegative(xs[1..]);
    }
  }

  /** Sum of a column whose entries are all positive is positive (if any). */
  lemma {:induction false} SumPositive(xs: seq<real>)
    requires |xs| > 0
    requires forall i :: 0 <= i < |xs| ==> xs[i] > 0.0
    ensures Sum(xs) > 0.0
  {
    if |xs| > 1 {
      SumPositive(xs[1..]);
    }
  }

  /** A column of positive entries never sums below 0. */
  lemma SumNonNegative(xs: seq<real>)
    requires forall i :: 0 <= i < |xs| ==> xs[i] > 0.0
    ensures Sum(xs) >= 0.0
  {
    if |xs| > 0 {
      SumPositive(xs);
    }
  }

  /** Sum distributes over concatenation. */
  lemma {:induction false} SumAppend(xs: seq<real>, ys: seq<real>)
    ensures Sum(xs + ys) == Sum(xs) + Sum(ys)
  {
    if xs == [] {
      assert xs + ys == ys;
    } else {
      assert (xs + ys)[1..] == xs[1..] + ys;
      SumAppend(xs[1..], ys);
    }
  }

  /** Smallest entry of a non-empty column (pandas' Series.min). */
  function MinOf(xs: seq<real>): (m: real)
    requires |xs| > 0
    ensures forall i :: 0 <= i < |xs| ==> m <= xs[i]
    ensures exists i :: 0 <= i < |xs| && m == xs[i]
  {
    if |xs| == 1 then xs[0]
    else
      var rest := MinOf(xs[1..]);
      assert forall i :: 1 <= i < |xs| ==> xs[i] == xs[1..][i - 1];
      if xs[0] <= rest then xs[0] else rest
  }

  /** Largest entry of a non-empty column (pandas' Series.max). */
  function MaxOf(xs: seq<real>): (m: real)
    requires |xs| > 0
    ensures forall i :: 0 <= i < |xs| ==> xs[i] <= m
    ensures exists i :: 0 <= i < |xs| && m == xs[i]
  {
    if |xs| == 1 then xs[0]
    else
      var rest := MaxOf(xs[1..]);
      assert forall i :: 1 <= i < |xs| ==> xs[i] == xs[1..][i - 1];
      if xs[0] >= rest then xs[0] else rest
  }

  /** Arithmetic mean of a non-empty column (pandas' Series.mean). */
  function Mean(xs: seq<real>): real
    requires |xs| > 0
  {
    Sum(xs) / |xs| as real
  }

  /** The mean never exceeds the largest entry. */
  lemma {:induction false} MeanAtMostMax(xs: seq<real>)
    requires |xs| > 0
    ensures Mean(xs) <= MaxOf(xs)
  {
    SumAtMost(xs, MaxOf(xs));
  }

  /** The mean is never below the smallest entry. */
  lemma {:induction false} MeanAtLeastMin(xs: seq<real>)
    requires |xs| > 0
    ensures MinOf(xs) <= Mean(xs)
  {
    SumAtLeast(xs, MinOf(xs));
  }

  /** The mean of entries of one strict sign has that sign. */
  lemma MeanSign(xs: seq<real>)
    requires |xs| > 0
    ensures (forall i :: 0 <= i < |xs| ==> xs[i] < 0.0) ==> Mean(xs) < 0.0
    ensures (forall i :: 0 <= i < |xs| ==> xs[i] > 0.0) ==> Mean(xs) > 0.0
  {
    if forall i :: 0 <= i < |xs| ==> xs[i] < 0.0 {
      SumNegative(xs);
    }
    if forall i :: 0 <= i < |xs| ==> xs[i] > 0.0 {
      SumPositive(xs);
    }
    QuotientSign(Sum(xs), |xs| as real);
  }

  /** A column bounded above by c sums to at most |xs| * c. */
  lemma {:induction false} SumAtMost(xs: seq<real>, c: real)
    requires forall i :: 0 <= i < |xs| ==> xs[i] <= c
    ensures Sum(xs) <= |xs| as real * c
  {
    if xs != [] {
      assert forall i :: 0 <= i < |xs[1..]| ==> xs[1..][i] == xs[i + 1];
      SumAtMost(xs[1..], c);
    }
  }

  /** A column bounded below by c sums to at least |xs| * c. */
  lemma {:induction false} SumAtLeast(xs: seq<real>, c: real)
    requires forall i :: 0 <= i < |xs| ==> c <= xs[i]
    ensures |xs| as real * c <= Sum(xs)
  {
    if xs != [] {
      assert forall i :: 0 <= i < |xs[1..]| ==> xs[1..][i] == xs[i + 1];
      SumAtLeast(xs[1..], c);
    }
  }

  /** Dividing by a positive count keeps a lower bound. */
  lemma QuotientAtLeast(s: real, n: real, c: real)
    requires n > 0.0 && n * c <= s
    ensures c <= s / n
  {
    var q := s / n;
    assert q * n == s;
    if q < c {
      assert (c - q) * n > 0.0;
    }
  }

  /** Dividing by a positive count keeps an upper bound. */
  lemma QuotientAtMost(s: real, n: real, c: real)
    requires n > 0.0 && s <= n * c
    ensures s / n <= c
  {
    var q := s / n;
    assert q * n == s;
    if q > c {
      assert (q - c) * n > 0.0;
    }
  }

  /** Dividing by a positive count keeps the sign. */
  lemma QuotientSign(s: real, n: real)
    requires n > 0.0
    ensures s < 0.0 ==> s / n < 0.0
    ensures s > 0.0 ==> s / n > 0.0
  {
    var q := s / n;
    assert q * n == s;
  }
}
