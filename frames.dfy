/**
 * The pandas DataFrame the pipeline threads through its stages, and the
 * three stages of main.py: `moving_averages`, `strategy` and `test_strategy`.
 * Each stage adds columns to the frame it is given, in place, as
 * main.py does; `moving_averages` and `test_strategy` return a fresh
 * `dropna()` copy, `strategy` returns the frame it changed.
 */
module Frames {
  import opened Wrappers
  import opened Series
  import opened Indicators
  import opened Backtest

  /** The module-level globals FAST and SLOW of main.py, used to name the average columns. */
  const FAST: int := 5
  const SLOW: int := 20

  /** The numeric columns the pipeline adds; `MaColumn(k)` is the column named "k_ma". */
  datatype Name = MaColumn(tag: int) | StrategyColumn | AssetReturnsColumn | StrategyReturnsColumn

  datatype Stage = MovingAveragesStage | StrategyStage | TestStrategyStage

  datatype Reason =
    | EmptyInput            // `df is None or df.empty`
    | NegativeWindow        // pandas rejects `rolling(w)` with w < 0
    | MissingMovingAverage  // "{fast}_ma" or "{slow}_ma" is not a column
    | MissingStrategy       // "Strategy" is not a column

  /** Every stage rewraps its failure into one RuntimeError naming the stage. */
  datatype Failure = RuntimeError(stage: Stage, reason: Reason)

  /**
   * The value of a frame: row labels (positions in the downloaded history),
   * the Close column, the numeric columns added so far and the boolean
   * Signal_Change column once it exists.
   */
  datatype Table = Table(index: seq<int>, close: seq<real>, columns: map<Name, Series>, signalChange: Option<seq<bool>>)
  {
    /** All columns have one cell per row. */
    predicate WellFormed()
    {
      |close| == |index| &&
      (forall k :: k in columns ==> |columns[k]| == |index|) &&
      (signalChange.Some? ==> |signalChange.value| == |index|)
    }

    /** Row i has no NaN in any column (a boolean column is never NaN). */
    function Complete(): (complete: seq<bool>)
      requires WellFormed()
      ensures |complete| == |index|
    {
      seq(|index|, i requires 0 <= i < |index| => forall k :: k in columns ==> columns[k][i].Some?)
    }

    /**
     * pandas `dropna()`: the rows without NaN, in their original order,
     * with their labels and cells unchanged.
     */
    function DropNa(): (r: Table)
      requires WellFormed()
      ensures r.WellFormed() && r.columns.Keys == columns.Keys && r.signalChange.Some? == signalChange.Some?
      ensures forall k, j :: k in r.columns && 0 <= j < |r.index| ==> r.columns[k][j].Some?
      ensures var rows := TrueRows(Complete());
        |r.index| == |rows| &&
        (forall j :: 0 <= j < |rows| ==>
           rows[j] < |index| && Complete()[rows[j]] &&
           r.index[j] == index[rows[j]] && r.close[j] == close[rows[j]] &&
           (forall k :: k in columns ==> r.columns[k][j] == columns[k][rows[j]]) &&
           (signalChange.Some? ==> r.signalChange.value[j] == signalChange.value[rows[j]])) &&
        (forall i :: 0 <= i < |index| && Complete()[i] ==> i in rows) &&
        (forall j, j' :: 0 <= j < j' < |rows| ==> rows[j] < rows[j'])
    {
      var rows := TrueRows(Complete());
      Table(Select(index, rows), Select(close, rows),
            map k | k in columns :: Select(columns[k], rows),
            if signalChange.Some? then Some(Select(signalChange.value, rows)) else None)
    }

    /** The rows from lo on. */
    function Suffix(lo: nat): (r: Table)
      requires WellFormed() && lo <= |index|
      ensures r.WellFormed()
    {
      Table(index[lo..], close[lo..],
            map k | k in columns :: columns[k][lo..],
            if signalChange.Some? then Some(signalChange.value[lo..]) else None)
    }

    /** When exactly the rows from lo on are complete, `dropna()` keeps those rows. */
    lemma DropNaKeepsSuffix(lo: nat)
      requires WellFormed() && lo <= |index|
      requires forall i :: 0 <= i < |index| ==> (Complete()[i] <==> lo <= i)
      ensures DropNa() == Suffix(lo)
    {
      TrueRowsOfSuffix(Complete(), lo);
      SelectingSuffix(lo);
    }

    /** Keeping the rows lo..|index|-1 of every column is taking the suffix from lo. */
    lemma SelectingSuffix(lo: nat)
      requires WellFormed() && lo <= |index|
      requires TrueRows(Complete()) == Range(lo, |index|)
      ensures DropNa() == Suffix(lo)
    {
      var n := |index|;
      var dropped, suffix := DropNa(), Suffix(lo);
      assert dropped.index == suffix.index by {
        SelectSuffix(index, lo);
      }
      assert dropped.close == suffix.close by {
        SelectSuffix(close, lo);
      }
      assert dropped.columns == suffix.columns by {
        var kept := map k | k in columns :: Select(columns[k], Range(lo, n));
        var tail := map k | k in columns :: columns[k][lo..];
        forall k | k in columns
          ensures kept[k] == tail[k]
        {
          SelectSuffix(columns[k], lo);
        }
        assert kept == tail;
      }
      assert dropped.signalChange == suffix.signalChange by {
        if signalChange.Some? {
          SelectSuffix(signalChange.value, lo);
        }
      }
    }

    /** When no row is complete, `dropna()` leaves an empty table. */
    lemma DropNaKeepsNothing()
      requires WellFormed()
      requires forall i :: 0 <= i < |index| ==> !Complete()[i]
      ensures |DropNa().index| == 0
    {
      TrueRowsOfNone(Complete());
    }
  }

  /** The mutable DataFrame object the stages receive and change. */
  class Frame {
    var index: seq<int>
    var close: seq<real>
    var columns: map<Name, Series>
    var signalChange: Option<seq<bool>>

    /** The current contents of the frame. */
    function View(): Table
      reads this
    {
      Table(index, close, columns, signalChange)
    }

    /** pandas `df.empty`: the frame has no rows. */
    predicate Empty()
      reads this
    {
      |index| == 0
    }

    constructor (t: Table)
      ensures View() == t
    {
      index, close, columns, signalChange := t.index, t.close, t.columns, t.signalChange;
    }
  }

  /** The two columns `moving_averages` writes: named after the globals, filled with the parameters' windows. */
  function WithMovingAverages(t: Table, fast: nat, slow: nat): (r: Table)
    requires t.WellFormed()
    ensures r.WellFormed() && r.index == t.index && r.close == t.close && r.signalChange == t.signalChange
    ensures r.columns.Keys == t.columns.Keys + {MaColumn(FAST), MaColumn(SLOW)}
    ensures r.columns[MaColumn(FAST)] == RollingMean(t.close, fast) && r.columns[MaColumn(SLOW)] == RollingMean(t.close, slow)
    ensures forall k :: k in t.columns && k != MaColumn(FAST) && k != MaColumn(SLOW) ==> r.columns[k] == t.columns[k]
  {
    t.(columns := t.columns[MaColumn(FAST) := RollingMean(t.close, fast)][MaColumn(SLOW) := RollingMean(t.close, slow)])
  }

  /** The Strategy column `strategy` writes: the lagged crossover of the columns "{fast}_ma" and "{slow}_ma". */
  function WithPosition(t: Table, fast: int, slow: int): (r: Table)
    requires t.WellFormed() && MaColumn(fast) in t.columns && MaColumn(slow) in t.columns
    ensures r.WellFormed() && r.index == t.index && r.close == t.close && r.signalChange == t.signalChange
    ensures r.columns.Keys == t.columns.Keys + {StrategyColumn}
    ensures r.columns[StrategyColumn] == Position(t.columns[MaColumn(fast)], t.columns[MaColumn(slow)])
    ensures forall k :: k in t.columns && k != StrategyColumn ==> r.columns[k] == t.columns[k]
  {
    t.(columns := t.columns[StrategyColumn := Position(t.columns[MaColumn(fast)], t.columns[MaColumn(slow)])])
  }

  /** The three columns `test_strategy` writes: both cumulative returns and Signal_Change. */
  function WithBacktest(t: Table): (r: Table)
    requires t.WellFormed() && StrategyColumn in t.columns && 0.0 !in t.close
    ensures r.WellFormed() && r.index == t.index && r.close == t.close
    ensures r.columns.Keys == t.columns.Keys + {AssetReturnsColumn, StrategyReturnsColumn}
    ensures r.columns[AssetReturnsColumn] == AssetReturns(t.close)
    ensures r.columns[StrategyReturnsColumn] == StrategyReturns(t.close, t.columns[StrategyColumn])
    ensures r.signalChange == Some(SignalChange(t.columns[StrategyColumn]))
    ensures forall k :: k in t.columns && k != AssetReturnsColumn && k != StrategyReturnsColumn ==> r.columns[k] == t.columns[k]
  {
    var pos := t.columns[StrategyColumn];
    t.(columns := t.columns[AssetReturnsColumn := AssetReturns(t.close)]
                           [StrategyReturnsColumn := StrategyReturns(t.close, pos)],
       signalChange := Some(SignalChange(pos)))
  }

  /**
   * main.py `moving_averages`: rejects a missing or empty frame, adds the
   * columns "5_ma" and "20_ma" holding the rolling means for the windows
   * `fast` and `slow` (a negative window fails inside pandas, after any
   * column already written), and returns a fresh frame without NaN rows.
   */
  method MovingAverages(df: Frame?, fast: int, slow: int) returns (r: Result<Frame, Failure>)
    requires df != null ==> df.View().WellFormed()
    modifies df
    ensures df == null ==> r == Failure(RuntimeError(MovingAveragesStage, EmptyInput))
    ensures df != null && old(df.Empty()) ==>
      r == Failure(RuntimeError(MovingAveragesStage, EmptyInput)) && df.View() == old(df.View())
    ensures df != null && !old(df.Empty()) && fast < 0 ==>
      r == Failure(RuntimeError(MovingAveragesStage, NegativeWindow)) && df.View() == old(df.View())
    ensures df != null && !old(df.Empty()) && fast >= 0 && slow < 0 ==>
      r == Failure(RuntimeError(MovingAveragesStage, NegativeWindow)) &&
      df.View() == old(df.View()).(columns := old(df.columns)[MaColumn(FAST) := RollingMean(df.close, fast)])
    ensures df != null && !old(df.Empty()) && fast >= 0 && slow >= 0 ==>
      df.View() == WithMovingAverages(old(df.View()), fast, slow) &&
      r.Success? && fresh(r.value) && r.value.View() == df.View().DropNa()
  {
    if df == null || df.Empty() {
      return Failure(RuntimeError(MovingAveragesStage, EmptyInput));
    }
    if fast < 0 {
      return Failure(RuntimeError(MovingAveragesStage, NegativeWindow));
    }
    df.columns := df.columns[MaColumn(FAST) := RollingMean(df.close, fast)];
    if slow < 0 {
      return Failure(RuntimeError(MovingAveragesStage, NegativeWindow));
    }
    df.columns := df.columns[MaColumn(SLOW) := RollingMean(df.close, slow)];
    var clean := new Frame(df.View().DropNa());
    r := Success(clean);
  }

  /**
   * main.py `strategy`: rejects a missing or empty frame and one without
   * the columns "{fast}_ma" and "{slow}_ma", otherwise adds the Strategy
   * column to the frame and returns that same frame.
   */
  method Strategy(df: Frame?, fast: int, slow: int) returns (r: Result<Frame, Failure>)
    requires df != null ==> df.View().WellFormed()
    modifies df
    ensures df == null ==> r == Failure(RuntimeError(StrategyStage, EmptyInput))
    ensures df != null && old(df.Empty()) ==>
      r == Failure(RuntimeError(StrategyStage, EmptyInput)) && df.View() == old(df.View())
    ensures df != null && !old(df.Empty()) && (MaColumn(fast) !in old(df.columns) || MaColumn(slow) !in old(df.columns)) ==>
      r == Failure(RuntimeError(StrategyStage, MissingMovingAverage)) && df.View() == old(df.View())
    ensures df != null && !old(df.Empty()) && MaColumn(fast) in old(df.columns) && MaColumn(slow) in old(df.columns) ==>
      r == Success(df) && df.View() == WithPosition(old(df.View()), fast, slow)
  {
    if df == null || df.Empty() {
      return Failure(RuntimeError(StrategyStage, EmptyInput));
    }
    if MaColumn(fast) !in df.columns || MaColumn(slow) !in df.columns {
      return Failure(RuntimeError(StrategyStage, MissingMovingAverage));
    }
    var raw := RawSignal(df.columns[MaColumn(fast)], df.columns[MaColumn(slow)]);
    df.columns := df.columns[StrategyColumn := Shift(Lift(raw))];
    r := Success(df);
  }

  /**
   * main.py `test_strategy`: rejects a missing or empty frame and one
   * without a Strategy column; otherwise adds Asset_Returns,
   * Strategy_Returns and Signal_Change to the frame, hands the labels of
   * the BUY and SELL rows to the chart, and returns a fresh frame without
   * NaN rows.
   */
  method TestStrategy(df: Frame?) returns (r: Result<Frame, Failure>, buys: seq<int>, sells: seq<int>)
    requires df != null ==> df.View().WellFormed() && 0.0 !in df.close
    modifies df
    ensures df == null ==> r == Failure(RuntimeError(TestStrategyStage, EmptyInput)) && buys == sells == []
    ensures df != null && old(df.Empty()) ==>
      r == Failure(RuntimeError(TestStrategyStage, EmptyInput)) && buys == sells == [] && df.View() == old(df.View())
    ensures df != null && !old(df.Empty()) && StrategyColumn !in old(df.columns) ==>
      r == Failure(RuntimeError(TestStrategyStage, MissingStrategy)) && buys == sells == [] && df.View() == old(df.View())
    ensures df != null && !old(df.Empty()) && StrategyColumn in old(df.columns) ==>
      df.View() == WithBacktest(old(df.View())) &&
      r.Success? && fresh(r.value) && r.value.View() == df.View().DropNa() &&
      buys == Select(df.index, BuyRows(df.columns[StrategyColumn])) &&
      sells == Select(df.index, SellRows(df.columns[StrategyColumn]))
  {
    if df == null || df.Empty() {
      return Failure(RuntimeError(TestStrategyStage, EmptyInput)), [], [];
    }
    if StrategyColumn !in df.columns {
      return Failure(RuntimeError(TestStrategyStage, MissingStrategy)), [], [];
    }
    var pos := df.columns[StrategyColumn];
    var pct := PctChange(df.close);
    var assetGrowth := RunningProduct(Plus(pct, 1.0));
    df.columns := df.columns[AssetReturnsColumn := Plus(assetGrowth, -1.0)];
    var strategyGrowth := RunningProduct(Plus(Times(pct, pos), 1.0));
    df.columns := df.columns[StrategyReturnsColumn := Plus(strategyGrowth, -1.0)];
    df.signalChange := Some(SignalChange(pos));
    buys := Select(df.index, BuyRows(pos));
    sells := Select(df.index, SellRows(pos));
    var result := new Frame(df.View().DropNa());
    r := Success(result);
  }
}
