/**
 * The indicator half of the pipeline: the two simple moving averages of the
 * close column (main.py `moving_averages`) and the lagged long/short position
 * derived from them (main.py `strategy`).
 */
module Indicators {
  import opened Wrappers
  import opened Series

  /**
   * pandas `close.rolling(w).mean()` with its default `min_periods = w`:
   * row i holds the mean of the w closes ending at row i once w closes exist,
   * NaN before that. A window of width 0 averages nothing and is NaN on every row.
   */
  function RollingMean(close: seq<real>, w: nat): (ma: Series)
    ensures |ma| == |close|
  {
    seq(|close|, i requires 0 <= i < |close| =>
      if 1 <= w <= i + 1 then Some(Sum(close[i + 1 - w..i + 1]) / (w as real)) else None)
  }

  /** A defined average times the window width is the sum of the w closes ending at its row. */
  lemma RollingMeanTimesWidth(close: seq<real>, w: nat, i: nat)
    requires i < |close| && RollingMean(close, w)[i].Some?
    ensures 1 <= w <= i + 1
    ensures (w as real) * RollingMean(close, w)[i].value == Sum(close[i + 1 - w..i + 1])
  {
    MeanTimesWidth(Sum(close[i + 1 - w..i + 1]), w as real);
  }

  /** Multiplying a mean by the window width gives the window's total back. */
  lemma MeanTimesWidth(total: real, width: real)
    requires width != 0.0
    ensures width * (total / width) == total
  {
  }

  /**
   * The first w - 1 rows are NaN and the other |close| - w + 1 rows are
   * defined (none at all when the window is wider than the series or 0).
   */
  lemma RollingMeanDefinedRows(close: seq<real>, w: nat)
    ensures forall i :: 0 <= i < |close| ==> (RollingMean(close, w)[i].None? <==> w == 0 || i < w - 1)
    ensures CountDefined(RollingMean(close, w)) == if 1 <= w <= |close| then |close| - w + 1 else 0
  {
    var ma := RollingMean(close, w);
    if 1 <= w <= |close| {
      CountDefinedOfSuffix(ma, w - 1);
    } else {
      CountDefinedOfNone(ma);
    }
  }

  /** A defined average lies between any lower and upper bound of the closes in its window. */
  lemma RollingMeanWithinWindow(close: seq<real>, w: nat, i: nat, lo: real, hi: real)
    requires 1 <= w <= i + 1 <= |close|
    requires forall k :: i + 1 - w <= k <= i ==> lo <= close[k] <= hi
    ensures RollingMean(close, w)[i].Some?
    ensures lo <= RollingMean(close, w)[i].value <= hi
  {
    var window := close[i + 1 - w..i + 1];
    var total, width := Sum(window), w as real;
    assert width * lo <= total <= width * hi by {
      assert forall k :: 0 <= k < |window| ==> window[k] == close[i + 1 - w + k];
      SumBounds(window, lo, hi);
    }
    MeanBounds(total, width, lo, hi);
  }

  /** A total between width * lo and width * hi has its mean between lo and hi. */
  lemma MeanBounds(total: real, width: real, lo: real, hi: real)
    requires width > 0.0 && width * lo <= total <= width * hi
    ensures lo <= total / width <= hi
  {
    var mean := total / width;
    assert total == mean * width;
    assert (mean - lo) * width >= 0.0;
    assert (hi - mean) * width >= 0.0;
  }

  /** With every close equal to c, every defined average is c. */
  lemma RollingMeanOfConstant(close: seq<real>, w: nat, c: real)
    requires forall k :: 0 <= k < |close| ==> close[k] == c
    ensures forall i :: 0 <= i < |close| && RollingMean(close, w)[i].Some? ==> RollingMean(close, w)[i].value == c
  {
    forall i | 0 <= i < |close| && RollingMean(close, w)[i].Some?
      ensures RollingMean(close, w)[i].value == c
    {
      RollingMeanWithinWindow(close, w, i, c, c);
    }
  }

  /**
   * Moving the window one row forward adds the new close and drops the
   * oldest one, each weighted by 1/w.
   */
  lemma RollingMeanSlides(close: seq<real>, w: nat, i: nat)
    requires 1 <= w <= i < |close|
    ensures RollingMean(close, w)[i].Some? && RollingMean(close, w)[i - 1].Some?
    ensures RollingMean(close, w)[i].value
         == RollingMean(close, w)[i - 1].value + (close[i] - close[i - w]) / (w as real)
  {
    var middle := close[i + 1 - w..i];
    assert close[i + 1 - w..i + 1][..w - 1] == middle;
    assert close[i - w..i][1..] == middle;
    SumFront(close[i - w..i]);
    var width := w as real;
    var now, before := Sum(close[i + 1 - w..i + 1]), Sum(close[i - w..i]);
    assert now == before - close[i - w] + close[i];
    assert now / width == before / width + (close[i] - close[i - w]) / width;
  }

  /** The average at row i reads only closes up to row i. */
  lemma RollingMeanCausal(close: seq<real>, other: seq<real>, w: nat, i: nat)
    requires i < |close| && i < |other|
    requires close[..i + 1] == other[..i + 1]
    ensures RollingMean(close, w)[i] == RollingMean(other, w)[i]
  {
    if 1 <= w <= i + 1 {
      assert close[i + 1 - w..i + 1] == close[..i + 1][i + 1 - w..];
      assert other[i + 1 - w..i + 1] == other[..i + 1][i + 1 - w..];
    }
  }

  /**
   * The NumPy comparison `fast > slow`: false as soon as either side is NaN,
   * and false on a tie.
   */
  predicate Above(fast: Option<real>, slow: Option<real>)
  {
    fast.Some? && slow.Some? && fast.value > slow.value
  }

  /**
   * `np.where(fast > slow, 1, -1)`: long (+1) exactly where the fast average
   * is strictly above the slow one, short (-1) everywhere else.
   */
  function RawSignal(fastMa: Series, slowMa: Series): (raw: seq<real>)
    requires |fastMa| == |slowMa|
    ensures |raw| == |fastMa|
    ensures forall i :: 0 <= i < |raw| ==> (raw[i] == 1.0 <==> Above(fastMa[i], slowMa[i]))
    ensures forall i :: 0 <= i < |raw| ==> raw[i] == 1.0 || raw[i] == -1.0
  {
    seq(|fastMa|, i requires 0 <= i < |fastMa| => if Above(fastMa[i], slowMa[i]) then 1.0 else -1.0)
  }

  /**
   * The Strategy column: the raw signal shifted one row later, so the
   * position held on row i was decided on row i - 1.
   */
  function Position(fastMa: Series, slowMa: Series): (pos: Series)
    requires |fastMa| == |slowMa|
    ensures |pos| == |fastMa|
    ensures |pos| > 0 ==> pos[0].None?
    ensures forall i :: 1 <= i < |pos| ==> pos[i] == Some(RawSignal(fastMa, slowMa)[i - 1])
  {
    Shift(Lift(RawSignal(fastMa, slowMa)))
  }

  /** Every row after the first holds +1 or -1, and +1 exactly when the previous row had fast > slow. */
  lemma PositionIsLaggedCrossover(fastMa: Series, slowMa: Series, i: nat)
    requires |fastMa| == |slowMa|
    requires 1 <= i < |fastMa|
    ensures Position(fastMa, slowMa)[i] == Some(1.0) || Position(fastMa, slowMa)[i] == Some(-1.0)
    ensures Position(fastMa, slowMa)[i] == Some(1.0) <==> Above(fastMa[i - 1], slowMa[i - 1])
  {
  }

  /** Equal averages are a short signal, not a neutral one. */
  lemma TieGoesShort(fastMa: Series, slowMa: Series, i: nat)
    requires |fastMa| == |slowMa| && i + 1 < |fastMa|
    requires fastMa[i].Some? && fastMa[i] == slowMa[i]
    ensures RawSignal(fastMa, slowMa)[i] == -1.0
    ensures Position(fastMa, slowMa)[i + 1] == Some(-1.0)
  {
  }

  /**
   * The position changes from row i - 1 to row i exactly where the fast/slow
   * ordering changed one row earlier.
   */
  lemma PositionFlipsAtCrossings(fastMa: Series, slowMa: Series, i: nat)
    requires |fastMa| == |slowMa| && 2 <= i < |fastMa|
    ensures Position(fastMa, slowMa)[i] != Position(fastMa, slowMa)[i - 1]
        <==> Above(fastMa[i - 1], slowMa[i - 1]) != Above(fastMa[i - 2], slowMa[i - 2])
  {
  }

  /**
   * No look-ahead: the position on row i of the crossover of two moving
   * averages depends only on the closes strictly before row i.
   */
  lemma PositionNoLookahead(close: seq<real>, other: seq<real>, fast: nat, slow: nat, i: nat)
    requires |close| == |other| && i < |close|
    requires close[..i] == other[..i]
    ensures Position(RollingMean(close, fast), RollingMean(close, slow))[i]
         == Position(RollingMean(other, fast), RollingMean(other, slow))[i]
  {
    var f, s := RollingMean(close, fast), RollingMean(close, slow);
    var f', s' := RollingMean(other, fast), RollingMean(other, slow);
    if i > 0 {
      RollingMeanCausal(close, other, fast, i - 1);
      RollingMeanCausal(close, other, slow, i - 1);
      assert Above(f[i - 1], s[i - 1]) == Above(f'[i - 1], s'[i - 1]);
      assert RawSignal(f, s)[i - 1] == RawSignal(f', s')[i - 1];
    }
  }
}
