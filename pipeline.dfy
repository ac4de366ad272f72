/**
 * The three stages composed as the script at the bottom of main.py runs
 * them on a downloaded close series, and what the composition yields:
 * which failure, or which rows and values reach the returned frame and the
 * chart's BUY and SELL markers.
 */
module Pipeline {
  import opened Wrappers
  import opened Series
  import opened Indicators
  import opened Backtest
  import opened Frames

  function Max(a: int, b: int): int
  {
    if a < b then b else a
  }

  /** Both windows are positive and the wider one fits in the n closes. */
  predicate Enough(n: int, fast: int, slow: int)
  {
    1 <= fast && 1 <= slow && Max(fast, slow) <= n
  }

  /** A window number that names one of the columns "5_ma" and "20_ma". */
  predicate Known(tag: int)
  {
    tag == FAST || tag == SLOW
  }

  /**
   * The window whose average `moving_averages(df, fast, slow)` stored in the
   * column named after a global: "20_ma" holds the slow window, "5_ma" the fast one.
   */
  function StoredWindow(tag: int, fast: nat, slow: nat): (w: nat)
    requires Known(tag)
    ensures tag == FAST ==> w == fast
    ensures tag == SLOW ==> w == slow
  {
    if tag == SLOW then slow else fast
  }

  /** The downloaded frame: rows labelled 0..n-1 and only the Close column. */
  function Initial(close: seq<real>): (t: Table)
    ensures t.WellFormed()
  {
    Table(Range(0, |close|), close, map[], None)
  }

  /** The frame `moving_averages` returns when both windows fit. */
  function Trimmed(close: seq<real>, fast: nat, slow: nat): (t: Table)
    requires Enough(|close|, fast, slow)
    ensures t.WellFormed() && MaColumn(FAST) in t.columns && MaColumn(SLOW) in t.columns
    ensures 0.0 !in close ==> 0.0 !in t.close
  {
    WithMovingAverages(Initial(close), fast, slow).Suffix(Max(fast, slow) - 1)
  }

  /**
   * `dropna()` after `moving_averages`: when both windows fit, the rows from
   * max(fast, slow) - 1 on remain; otherwise no row remains.
   */
  lemma MovingAveragesTrim(close: seq<real>, fast: nat, slow: nat)
    ensures !Enough(|close|, fast, slow) ==> |WithMovingAverages(Initial(close), fast, slow).DropNa().index| == 0
    ensures Enough(|close|, fast, slow) ==> WithMovingAverages(Initial(close), fast, slow).DropNa() == Trimmed(close, fast, slow)
  {
    var t := WithMovingAverages(Initial(close), fast, slow);
    CompleteRows(close, fast, slow);
    if Enough(|close|, fast, slow) {
      t.DropNaKeepsSuffix(Max(fast, slow) - 1);
    } else {
      t.DropNaKeepsNothing();
    }
  }

  /** After `moving_averages`, row i has no NaN exactly when both windows are positive and end by row i. */
  lemma CompleteRows(close: seq<real>, fast: nat, slow: nat)
    ensures var t := WithMovingAverages(Initial(close), fast, slow);
      forall i :: 0 <= i < |close| ==> (t.Complete()[i] <==> 1 <= fast && 1 <= slow && Max(fast, slow) - 1 <= i)
  {
    var t := WithMovingAverages(Initial(close), fast, slow);
    var fastMa, slowMa := RollingMean(close, fast), RollingMean(close, slow);
    RollingMeanDefinedRows(close, fast);
    RollingMeanDefinedRows(close, slow);
    assert t.columns.Keys == {MaColumn(FAST), MaColumn(SLOW)};
    assert t.columns[MaColumn(FAST)] == fastMa && t.columns[MaColumn(SLOW)] == slowMa;
    forall i | 0 <= i < |close|
      ensures t.Complete()[i] <==> 1 <= fast && 1 <= slow && Max(fast, slow) - 1 <= i
    {
      assert t.Complete()[i] <==> fastMa[i].Some? && slowMa[i].Some?;
    }
  }

  /** What the trimmed frame holds: rows max(fast, slow) - 1 onward, both averages defined on each. */
  lemma TrimmedShape(close: seq<real>, fast: nat, slow: nat)
    requires Enough(|close|, fast, slow)
    ensures var t, m := Trimmed(close, fast, slow), Max(fast, slow);
      t.index == Range(m - 1, |close|) && t.close == close[m - 1..] && t.signalChange.None? &&
      t.columns.Keys == {MaColumn(FAST), MaColumn(SLOW)} &&
      (forall tag :: Known(tag) ==> t.columns[MaColumn(tag)] == RollingMean(close, StoredWindow(tag, fast, slow))[m - 1..]) &&
      (forall k, j :: k in t.columns && 0 <= j < |t.index| ==> t.columns[k][j].Some?)
  {
    var m := Max(fast, slow);
    var t := Trimmed(close, fast, slow);
    assert t.index == Range(m - 1, |close|) by {
      assert Range(0, |close|)[m - 1..] == Range(m - 1, |close|);
    }
    assert t.columns.Keys == {MaColumn(FAST), MaColumn(SLOW)};
    forall tag | Known(tag)
      ensures t.columns[MaColumn(tag)] == RollingMean(close, StoredWindow(tag, fast, slow))[m - 1..]
    {
    }
    forall k, j | k in t.columns && 0 <= j < |t.index|
      ensures t.columns[k][j].Some?
    {
      RollingMeanDefinedRows(close, fast);
      RollingMeanDefinedRows(close, slow);
    }
  }

  /** The frame after `strategy` and the three columns of `test_strategy`. */
  function Backtested(t: Table, fast: int, slow: int): (u: Table)
    requires t.WellFormed() && 0.0 !in t.close
    requires MaColumn(fast) in t.columns && MaColumn(slow) in t.columns
    ensures u.WellFormed()
  {
    WithBacktest(WithPosition(t, fast, slow))
  }

  /**
   * On a frame with no NaN, the final `dropna()` of `test_strategy` drops
   * exactly the first row (its position and returns are NaN) and keeps all others.
   */
  lemma BacktestDropsFirstRow(t: Table, fast: int, slow: int)
    requires t.WellFormed() && 0.0 !in t.close && |t.index| >= 1
    requires MaColumn(fast) in t.columns && MaColumn(slow) in t.columns
    requires forall k, j :: k in t.columns && 0 <= j < |t.index| ==> t.columns[k][j].Some?
    ensures Backtested(t, fast, slow).DropNa() == Backtested(t, fast, slow).Suffix(1)
  {
    var u := Backtested(t, fast, slow);
    var pos := u.columns[StrategyColumn];
    var pct := PctChange(t.close);
    assert pos == Position(t.columns[MaColumn(fast)], t.columns[MaColumn(slow)]);
    assert u.columns[AssetReturnsColumn] == AssetReturns(t.close);
    assert u.columns[StrategyReturnsColumn] == StrategyReturns(t.close, pos);
    forall i | 0 <= i < |t.index|
      ensures u.Complete()[i] <==> 1 <= i
    {
      if i >= 1 {
        assert t.close[i - 1] in t.close;
        assert pct[i].Some? && pos[i].Some?;
        assert AssetReturns(t.close)[i].Some?;
        assert StrategyReturns(t.close, pos)[i].Some?;
      } else {
        assert !u.Complete()[0] by {
          assert StrategyColumn in u.columns && pos[0].None?;
        }
      }
    }
    u.DropNaKeepsSuffix(1);
  }

  /** A suffix of closes without a zero has no zero. */
  lemma NoZeroInSuffix(close: seq<real>, lo: nat)
    requires 0.0 !in close && lo <= |close|
    ensures 0.0 !in close[lo..]
  {
  }

  /**
   * The reported position on row m + j: long exactly when the fast average
   * was strictly above the slow one on row m + j - 1, short otherwise.
   */
  ghost predicate ReportsPositions(close: seq<real>, fast: nat, slow: nat, m: nat, pos: Series)
    requires Known(fast) && Known(slow)
  {
    var fastMa := RollingMean(close, StoredWindow(fast, fast, slow));
    var slowMa := RollingMean(close, StoredWindow(slow, fast, slow));
    1 <= m <= |close| && |pos| == |close| - m &&
    forall j :: 0 <= j < |pos| ==>
      pos[j] == Some(if Above(fastMa[m - 1 + j], slowMa[m - 1 + j]) then 1.0 else -1.0)
  }

  /** The reported buy-and-hold return on row m + j, measured from the close of row m - 1. */
  ghost predicate ReportsAssetReturns(close: seq<real>, m: nat, asset: Series)
    requires 0.0 !in close
  {
    1 <= m <= |close| && |asset| == |close| - m &&
    forall j :: 0 <= j < |asset| ==> asset[j] == Some(close[m + j] / close[m - 1] - 1.0)
  }

  /**
   * The reported strategy return, compounded from the close of row m - 1:
   * the first row earns its daily return times its position, and each later
   * row multiplies 1 + return by 1 + its daily return times its position.
   */
  ghost predicate ReportsStrategyReturns(close: seq<real>, m: nat, pos: Series, strategy: Series)
    requires 0.0 !in close
  {
    1 <= m <= |close| && |pos| == |strategy| == |close| - m &&
    (forall j :: 0 <= j < |pos| ==> pos[j].Some? && strategy[j].Some?) &&
    (|pos| > 0 ==> strategy[0].value == (close[m] / close[m - 1] - 1.0) * pos[0].value) &&
    forall j :: 1 <= j < |pos| ==>
      1.0 + strategy[j].value == (1.0 + strategy[j - 1].value) * (1.0 + (close[m + j] / close[m + j - 1] - 1.0) * pos[j].value)
  }

  /**
   * The chart's markers: row m, and every later row whose position differs
   * from the row before, labelled BUY when the new position is +1 and SELL
   * when it is -1.
   */
  ghost predicate ReportsSignals(m: nat, pos: Series, buys: seq<int>, sells: seq<int>)
  {
    (forall x :: x in buys <==> SignalAt(m, pos, 1.0, x)) &&
    (forall x :: x in sells <==> SignalAt(m, pos, -1.0, x))
  }

  /** Label x is row m, or a later row whose position differs from the row before, and its position is side. */
  ghost predicate SignalAt(m: nat, pos: Series, side: real, x: int)
  {
    m <= x < m + |pos| && pos[x - m] == Some(side) && (x == m || pos[x - m] != pos[x - m - 1])
  }

  /**
   * What the script hands on after all three stages succeed, with m the
   * wider window: the rows m..n-1 (the first trimmed row is dropped), their
   * closes, and the reported positions, returns and signal labels.
   */
  ghost predicate Reports(close: seq<real>, fast: nat, slow: nat, f: Table, buys: seq<int>, sells: seq<int>)
    requires Enough(|close|, fast, slow) && Known(fast) && Known(slow) && 0.0 !in close
  {
    var n, m := |close|, Max(fast, slow);
    f.WellFormed() && f.index == Range(m, n) && f.close == close[m..] &&
    StrategyColumn in f.columns && AssetReturnsColumn in f.columns && StrategyReturnsColumn in f.columns &&
    ReportsPositions(close, fast, slow, m, f.columns[StrategyColumn]) &&
    ReportsAssetReturns(close, m, f.columns[AssetReturnsColumn]) &&
    ReportsStrategyReturns(close, m, f.columns[StrategyColumn], f.columns[StrategyReturnsColumn]) &&
    ReportsSignals(m, f.columns[StrategyColumn], buys, sells)
  }

  /** The Strategy column of the trimmed frame, without its first row, is the reported position. */
  lemma PositionsReported(close: seq<real>, fast: nat, slow: nat)
    requires Enough(|close|, fast, slow) && Known(fast) && Known(slow)
    ensures var t := Trimmed(close, fast, slow);
      MaColumn(fast) in t.columns && MaColumn(slow) in t.columns &&
      var pos := Position(t.columns[MaColumn(fast)], t.columns[MaColumn(slow)]);
      IsPositionColumn(pos) && |pos| == |close| - Max(fast, slow) + 1 &&
      ReportsPositions(close, fast, slow, Max(fast, slow), pos[1..])
  {
    var m := Max(fast, slow);
    var t := Trimmed(close, fast, slow);
    TrimmedShape(close, fast, slow);
    var fastMa := RollingMean(close, StoredWindow(fast, fast, slow));
    var slowMa := RollingMean(close, StoredWindow(slow, fast, slow));
    var fcol, scol := t.columns[MaColumn(fast)], t.columns[MaColumn(slow)];
    assert fcol == fastMa[m - 1..] && scol == slowMa[m - 1..];
    var pos := Position(fcol, scol);
    forall k | 1 <= k < |pos|
      ensures pos[k] == Some(1.0) || pos[k] == Some(-1.0)
    {
      PositionIsLaggedCrossover(fcol, scol, k);
    }
    forall j | 0 <= j < |pos| - 1
      ensures pos[1..][j] == Some(if Above(fastMa[m - 1 + j], slowMa[m - 1 + j]) then 1.0 else -1.0)
    {
      assert fcol[j] == fastMa[m - 1 + j] && scol[j] == slowMa[m - 1 + j];
      PositionIsLaggedCrossover(fcol, scol, j + 1);
    }
  }

  /** Compounding the daily returns of the closes from row m - 1 on gives the reported asset return. */
  lemma AssetReturnsReported(close: seq<real>, m: nat)
    requires 0.0 !in close && 1 <= m <= |close|
    ensures 0.0 !in close[m - 1..]
    ensures ReportsAssetReturns(close, m, AssetReturns(close[m - 1..])[1..])
  {
    NoZeroInSuffix(close, m - 1);
    var c := close[m - 1..];
    var asset := AssetReturns(c)[1..];
    AssetReturnsTelescope(c);
    forall j | 0 <= j < |asset|
      ensures asset[j] == Some(close[m + j] / close[m - 1] - 1.0)
    {
      assert c[j + 1] == close[m + j] && c[0] == close[m - 1];
    }
  }

  /** Compounding the position-weighted daily returns from row m - 1 on gives the reported strategy return. */
  lemma StrategyReturnsReported(close: seq<real>, m: nat, pos: Series)
    requires 0.0 !in close && 1 <= m <= |close|
    requires IsPositionColumn(pos) && |pos| == |close| - m + 1
    ensures 0.0 !in close[m - 1..]
    ensures ReportsStrategyReturns(close, m, pos[1..], StrategyReturns(close[m - 1..], pos)[1..])
  {
    NoZeroInSuffix(close, m - 1);
    var c := close[m - 1..];
    var strategy := StrategyReturns(c, pos)[1..];
    var held := pos[1..];
    forall j | 0 <= j < |held|
      ensures held[j].Some? && strategy[j].Some?
    {
      StrategyReturnsStep(c, pos, j + 1);
    }
    forall j | 1 <= j < |held|
      ensures 1.0 + strategy[j].value
        == (1.0 + strategy[j - 1].value) * (1.0 + (close[m + j] / close[m + j - 1] - 1.0) * held[j].value)
    {
      StrategyReturnsRow(close, m, pos, j);
    }
    if |held| > 0 {
      StrategyReturnsStep(c, pos, 1);
      assert strategy[0].value == (close[m] / close[m - 1] - 1.0) * held[0].value;
    }
    assert ReportsStrategyReturns(close, m, held, strategy);
  }

  /** Row j >= 1 of `StrategyReturnsReported`. */
  lemma StrategyReturnsRow(close: seq<real>, m: nat, pos: Series, j: nat)
    requires 0.0 !in close && 1 <= m <= |close|
    requires IsPositionColumn(pos) && |pos| == |close| - m + 1
    requires 1 <= j < |pos| - 1
    ensures 0.0 !in close[m - 1..]
    ensures var strategy, held := StrategyReturns(close[m - 1..], pos)[1..], pos[1..];
      held[j].Some? && strategy[j].Some? && strategy[j - 1].Some? &&
      1.0 + strategy[j].value
        == (1.0 + strategy[j - 1].value) * (1.0 + (close[m + j] / close[m + j - 1] - 1.0) * held[j].value)
  {
    NoZeroInSuffix(close, m - 1);
    var c := close[m - 1..];
    var full := StrategyReturns(c, pos);
    StrategyReturnsStep(c, pos, j + 1);
    assert c[j + 1] == close[m + j] && c[j] == close[m + j - 1];
    assert PctChange(c)[j + 1] == Some(close[m + j] / close[m + j - 1] - 1.0) by {
      assert c[j] in c;
    }
    assert full[1..][j] == full[j + 1] && full[1..][j - 1] == full[j] && pos[1..][j] == pos[j + 1];
  }

  /** The labels of the BUY and SELL rows of a trimmed frame starting at label m - 1 are the reported ones. */
  lemma SignalsReported(m: nat, pos: Series)
    requires 1 <= m && IsPositionColumn(pos)
    ensures var labels := Range(m - 1, m - 1 + |pos|);
      ReportsSignals(m, pos[1..], Select(labels, BuyRows(pos)), Select(labels, SellRows(pos)))
  {
    var labels := Range(m - 1, m - 1 + |pos|);
    var buys, sells := Select(labels, BuyRows(pos)), Select(labels, SellRows(pos));
    forall x
      ensures x in buys <==> SignalAt(m, pos[1..], 1.0, x)
      ensures x in sells <==> SignalAt(m, pos[1..], -1.0, x)
    {
      SignalLabel(m, pos, x);
    }
  }

  /** One label of `SignalsReported`. */
  lemma SignalLabel(m: nat, pos: Series, x: int)
    requires 1 <= m && IsPositionColumn(pos)
    ensures var labels := Range(m - 1, m - 1 + |pos|);
      (x in Select(labels, BuyRows(pos)) <==> SignalAt(m, pos[1..], 1.0, x)) &&
      (x in Select(labels, SellRows(pos)) <==> SignalAt(m, pos[1..], -1.0, x))
  {
    var hi := m - 1 + |pos|;
    SelectRangeMembers(m - 1, hi, BuyRows(pos), x);
    SelectRangeMembers(m - 1, hi, SellRows(pos), x);
    var j := x - (m - 1);
    if 0 <= j < |pos| {
      SignalEvents(pos, j);
      EventRows(pos, j);
    }
  }

  /** The Strategy column `strategy` writes on the trimmed frame. */
  function TrimmedPosition(close: seq<real>, fast: nat, slow: nat): (pos: Series)
    requires Enough(|close|, fast, slow) && Known(fast) && Known(slow)
  {
    var t := Trimmed(close, fast, slow);
    Position(t.columns[MaColumn(fast)], t.columns[MaColumn(slow)])
  }

  /** The frame `test_strategy` returns after the two earlier stages. */
  function Final(close: seq<real>, fast: nat, slow: nat): (f: Table)
    requires Enough(|close|, fast, slow) && Known(fast) && Known(slow) && 0.0 !in close
    ensures f.WellFormed()
  {
    Backtested(Trimmed(close, fast, slow), fast, slow).Suffix(1)
  }

  /** The labels of the rows the chart marks BUY after the three stages. */
  function Buys(close: seq<real>, fast: nat, slow: nat): seq<int>
    requires Enough(|close|, fast, slow) && Known(fast) && Known(slow)
  {
    Select(Trimmed(close, fast, slow).index, BuyRows(TrimmedPosition(close, fast, slow)))
  }

  /** The labels of the rows the chart marks SELL after the three stages. */
  function Sells(close: seq<real>, fast: nat, slow: nat): seq<int>
    requires Enough(|close|, fast, slow) && Known(fast) && Known(slow)
  {
    Select(Trimmed(close, fast, slow).index, SellRows(TrimmedPosition(close, fast, slow)))
  }

  /** The final `dropna()` of `test_strategy`, after the two earlier stages, keeps the rows from the second on. */
  lemma FinalDropNa(close: seq<real>, fast: nat, slow: nat)
    requires Enough(|close|, fast, slow) && Known(fast) && Known(slow) && 0.0 !in close
    ensures Backtested(Trimmed(close, fast, slow), fast, slow).DropNa() == Final(close, fast, slow)
  {
    TrimmedShape(close, fast, slow);
    BacktestDropsFirstRow(Trimmed(close, fast, slow), fast, slow);
  }

  /** The final frame holds rows m..n-1, their closes, the Strategy column without its first row and both returns. */
  lemma FinalRows(close: seq<real>, fast: nat, slow: nat)
    requires Enough(|close|, fast, slow) && Known(fast) && Known(slow) && 0.0 !in close
    ensures var f, m := Final(close, fast, slow), Max(fast, slow);
      f.index == Range(m, |close|) && f.close == close[m..] &&
      StrategyColumn in f.columns && AssetReturnsColumn in f.columns && StrategyReturnsColumn in f.columns &&
      f.columns[StrategyColumn] == TrimmedPosition(close, fast, slow)[1..]
  {
    var n, m := |close|, Max(fast, slow);
    TrimmedShape(close, fast, slow);
    assert Range(m - 1, n)[1..] == Range(m, n);
    assert close[m - 1..][1..] == close[m..];
  }

  /** The Strategy column of the returned frame holds the reported positions. */
  lemma FinalPositions(close: seq<real>, fast: nat, slow: nat)
    requires Enough(|close|, fast, slow) && Known(fast) && Known(slow) && 0.0 !in close
    ensures ReportsPositions(close, fast, slow, Max(fast, slow), Final(close, fast, slow).columns[StrategyColumn])
  {
    FinalRows(close, fast, slow);
    PositionsReported(close, fast, slow);
  }

  /** The Asset_Returns column of the returned frame holds the reported buy-and-hold returns. */
  lemma FinalAssetReturns(close: seq<real>, fast: nat, slow: nat)
    requires Enough(|close|, fast, slow) && Known(fast) && Known(slow) && 0.0 !in close
    ensures ReportsAssetReturns(close, Max(fast, slow), Final(close, fast, slow).columns[AssetReturnsColumn])
  {
    var m := Max(fast, slow);
    TrimmedShape(close, fast, slow);
    AssetReturnsReported(close, m);
    assert Final(close, fast, slow).columns[AssetReturnsColumn] == AssetReturns(close[m - 1..])[1..];
  }

  /** The Strategy_Returns column of the returned frame compounds the reported positions. */
  lemma FinalStrategyReturns(close: seq<real>, fast: nat, slow: nat)
    requires Enough(|close|, fast, slow) && Known(fast) && Known(slow) && 0.0 !in close
    ensures var f := Final(close, fast, slow);
      StrategyColumn in f.columns && StrategyReturnsColumn in f.columns &&
      ReportsStrategyReturns(close, Max(fast, slow), f.columns[StrategyColumn], f.columns[StrategyReturnsColumn])
  {
    var m := Max(fast, slow);
    var pos := TrimmedPosition(close, fast, slow);
    FinalRows(close, fast, slow);
    PositionsReported(close, fast, slow);
    TrimmedShape(close, fast, slow);
    StrategyReturnsReported(close, m, pos);
    assert Final(close, fast, slow).columns[StrategyReturnsColumn] == StrategyReturns(close[m - 1..], pos)[1..];
  }

  /** The BUY and SELL labels are the reported signal rows of the returned frame. */
  lemma FinalSignals(close: seq<real>, fast: nat, slow: nat)
    requires Enough(|close|, fast, slow) && Known(fast) && Known(slow) && 0.0 !in close
    ensures ReportsSignals(Max(fast, slow), Final(close, fast, slow).columns[StrategyColumn],
                           Buys(close, fast, slow), Sells(close, fast, slow))
  {
    var m := Max(fast, slow);
    var pos := TrimmedPosition(close, fast, slow);
    assert IsPositionColumn(pos) && |pos| == |close| - m + 1 by {
      PositionsReported(close, fast, slow);
    }
    assert Final(close, fast, slow).columns[StrategyColumn] == pos[1..] by {
      FinalRows(close, fast, slow);
    }
    assert Trimmed(close, fast, slow).index == Range(m - 1, m - 1 + |pos|) by {
      TrimmedShape(close, fast, slow);
    }
    SignalsReported(m, pos);
  }

  /** The composition of the three stages' frame updates yields what `Reports` describes. */
  lemma PipelineReports(close: seq<real>, fast: nat, slow: nat)
    requires Enough(|close|, fast, slow) && Known(fast) && Known(slow) && 0.0 !in close
    ensures Reports(close, fast, slow, Final(close, fast, slow), Buys(close, fast, slow), Sells(close, fast, slow))
  {
    FinalRows(close, fast, slow);
    FinalPositions(close, fast, slow);
    FinalAssetReturns(close, fast, slow);
    FinalStrategyReturns(close, fast, slow);
    FinalSignals(close, fast, slow);
  }

  /**
   * The script at the bottom of main.py on a downloaded close series (rows
   * labelled 0..n-1): `moving_averages`, then `strategy`, then
   * `test_strategy`, stopping at the first RuntimeError.
   */
  method Run(close: seq<real>, fast: int, slow: int) returns (r: Result<Table, Failure>, buys: seq<int>, sells: seq<int>)
    requires 0.0 !in close
    ensures |close| == 0 ==> r == Failure(RuntimeError(MovingAveragesStage, EmptyInput))
    ensures |close| > 0 && (fast < 0 || slow < 0) ==> r == Failure(RuntimeError(MovingAveragesStage, NegativeWindow))
    ensures |close| > 0 && fast >= 0 && slow >= 0 && !Enough(|close|, fast, slow) ==>
      r == Failure(RuntimeError(StrategyStage, EmptyInput))
    ensures Enough(|close|, fast, slow) && !(Known(fast) && Known(slow)) ==>
      r == Failure(RuntimeError(StrategyStage, MissingMovingAverage))
    ensures Enough(|close|, fast, slow) && Known(fast) && Known(slow) ==>
      r == Success(Final(close, fast, slow)) && buys == Buys(close, fast, slow) && sells == Sells(close, fast, slow)
  {
    var df := new Frame(Initial(close));
    var ma := MovingAverages(df, fast, slow);
    if ma.Failure? {
      return Failure(ma.error), [], [];
    }
    assert !Enough(|close|, fast, slow) ==> ma.value.Empty() by {
      MovingAveragesTrim(close, fast, slow);
    }
    assert Enough(|close|, fast, slow) ==> ma.value.View() == Trimmed(close, fast, slow) by {
      MovingAveragesTrim(close, fast, slow);
    }
    r, buys, sells := StrategyThenTest(ma.value, close, fast, slow);
  }

  /**
   * The last two stages of the script, on the frame `moving_averages`
   * returned for closes `close` and windows `fast` and `slow`.
   */
  method StrategyThenTest(trimmed: Frame, close: seq<real>, fast: nat, slow: nat)
    returns (r: Result<Table, Failure>, buys: seq<int>, sells: seq<int>)
    requires 0.0 !in close
    requires !Enough(|close|, fast, slow) ==> trimmed.Empty() && trimmed.View().WellFormed()
    requires Enough(|close|, fast, slow) ==> trimmed.View() == Trimmed(close, fast, slow)
    modifies trimmed
    ensures !Enough(|close|, fast, slow) ==> r == Failure(RuntimeError(StrategyStage, EmptyInput))
    ensures Enough(|close|, fast, slow) && !(Known(fast) && Known(slow)) ==>
      r == Failure(RuntimeError(StrategyStage, MissingMovingAverage))
    ensures Enough(|close|, fast, slow) && Known(fast) && Known(slow) ==>
      r == Success(Final(close, fast, slow)) && buys == Buys(close, fast, slow) && sells == Sells(close, fast, slow)
  {
    assert Enough(|close|, fast, slow) ==>
      !trimmed.Empty() && trimmed.columns.Keys == {MaColumn(FAST), MaColumn(SLOW)} by {
      if Enough(|close|, fast, slow) {
        TrimmedShape(close, fast, slow);
      }
    }
    var st := Strategy(trimmed, fast, slow);
    if st.Failure? {
      return Failure(st.error), [], [];
    }
    r, buys, sells := TestAfterStrategy(trimmed, close, fast, slow);
  }

  /** The last stage of the script, on the frame `strategy` changed. */
  method TestAfterStrategy(df: Frame, close: seq<real>, fast: nat, slow: nat)
    returns (r: Result<Table, Failure>, buys: seq<int>, sells: seq<int>)
    requires Enough(|close|, fast, slow) && Known(fast) && Known(slow) && 0.0 !in close
    requires df.View() == WithPosition(Trimmed(close, fast, slow), fast, slow)
    modifies df
    ensures r == Success(Final(close, fast, slow)) && buys == Buys(close, fast, slow) && sells == Sells(close, fast, slow)
  {
    ghost var t := Trimmed(close, fast, slow);
    ghost var pos := TrimmedPosition(close, fast, slow);
    ghost var before := df.View();
    assert before.index == t.index && before.columns[StrategyColumn] == pos;
    var bt;
    bt, buys, sells := TestStrategy(df);
    assert df.View() == WithBacktest(before) == Backtested(t, fast, slow);
    r := Success(bt.value.View());
    FinalDropNa(close, fast, slow);
  }
}
