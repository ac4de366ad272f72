# Moving-average crossover pipeline in Dafny

A model of the signal and backtest pipeline of `main.py`, a script that
downloads a price history, computes a fast and a slow simple moving average
of the close, goes long (+1) when the fast average is strictly above the
slow one and short (-1) otherwise, one day late, and compounds the returns
of that position against buy-and-hold, marking the days the position flips
as BUY or SELL.

The model follows the three stages of the script:

- `moving_averages(df, fast, slow)` (module `Frames`, `MovingAverages`) adds
  two rolling-mean columns to the caller's frame in place and returns a
  fresh `dropna()` copy. pandas semantics are kept: `rolling(w).mean()` is
  NaN on the first `w - 1` rows, a window of 0 is NaN everywhere, and a
  negative window makes pandas raise, which the stage rewraps as its
  RuntimeError (after the first column has already been written when only
  the slow window is negative).
- `strategy(df, fast, slow)` (`Frames.Strategy`) adds the Strategy column,
  `np.where(fast_ma > slow_ma, 1, -1)` shifted by one row, and returns the
  same frame object.
- `test_strategy(df, ...)` (`Frames.TestStrategy`) adds Asset_Returns,
  Strategy_Returns and Signal_Change, computes the BUY and SELL rows that the
  chart marks, and returns a fresh `dropna()` copy. The running product
  behind `cumprod` is a loop over an array (`Backtest.RunningProduct`)
  proved equal to the product function `Backtest.CumProd`.

`Pipeline.Run` composes the stages as lines 120-123 of the script do, on a
close series whose rows are labelled 0..n-1, and states which error each
input produces and, on success, exactly which frame and which BUY/SELL
labels result; `Pipeline.PipelineReports` proves what that frame holds.

NaN is `None` of `Wrappers.Option`; prices are exact `real` numbers; a frame
is the class `Frames.Frame`, whose value is the datatype `Frames.Table`.

Behaviour of main.py worth noting:

- The two average columns are named after the module globals `FAST` (5) and
  `SLOW` (20), not after the `fast` and `slow` parameters, while `strategy`
  looks them up by its parameters. With both windows positive and no wider
  than the series, but one of them neither 5 nor 20, the pipeline fails in
  `strategy` with "missing moving average columns". (A negative window
  fails in `moving_averages` instead, and a zero or too wide window leaves
  an empty frame that `strategy` rejects first.) The model keeps this
  (`Pipeline.Run`, fourth case) and, when both windows are 5 or 20, reads
  the column "20_ma" as the slow window's average (`Pipeline.StoredWindow`).
- `np.where` compares NaN as false, so a row where either average is NaN gets
  -1, not NaN; after trimming no such row remains, but the function
  `Indicators.RawSignal` is total.
- `diff() != 0` is true where the difference is NaN, so row 1 of the trimmed
  frame (the first defined position) is always a change and always yields a
  BUY or a SELL.
- When exactly one row survives the first `dropna()`, `test_strategy`
  returns an empty frame rather than failing; only `strategy` and
  `test_strategy` applied to an already empty frame fail.

## Model

| member | source | states |
|---|---|---|
| Indicators.RollingMean | main.py:32-33 | `rolling(w).mean()` has one row per close |
| Indicators.RollingMeanTimesWidth | main.py:32-33 | a defined average sits on a row i with 1 <= w <= i + 1, and w times it is the sum of the w closes ending at row i |
| Indicators.RollingMeanDefinedRows | main.py:32-33 | the rolling mean is NaN exactly on rows i < w - 1 (on every row when w = 0) and defined on the other n - w + 1 rows, none when w > n |
| Indicators.RollingMeanWithinWindow | main.py:32-33 | a defined average lies between any lower and upper bound of the w closes of its window |
| Indicators.RollingMeanOfConstant | main.py:32-33 | on a constant close series every defined average equals that constant |
| Indicators.RollingMeanSlides | main.py:32-33 | moving the window one row adds (close[i] - close[i - w]) / w to the average |
| Indicators.RollingMeanCausal | main.py:32-33 | the average at row i depends only on the closes up to row i |
| Indicators.RawSignal | main.py:66 | the raw signal is +1 exactly when the fast average is defined, the slow one defined and fast > slow, and -1 otherwise; every entry is +1 or -1 |
| Indicators.Position | main.py:66-67 | same length as the averages, NaN on row 0, and row i >= 1 holds the raw signal of row i - 1 |
| Indicators.PositionIsLaggedCrossover | main.py:66-67 | from row 1 on the position is +1 or -1, and +1 exactly when fast > slow held on the row before |
| Indicators.TieGoesShort | main.py:66 | equal defined averages give -1, and the position on the next row is -1 |
| Indicators.PositionFlipsAtCrossings | main.py:66-67 | the position changes between rows i - 1 and i exactly when the fast/slow order changed between rows i - 2 and i - 1 |
| Indicators.PositionNoLookahead | main.py:66-67 | two close series that agree before row i give the same position on row i |
| Backtest.PctChange | main.py:80 | `pct_change()` has one row per close and is NaN exactly on row 0 |
| Backtest.PctChangeInverse | main.py:80 | growing the close of row i - 1 by the return of row i gives the close of row i |
| Backtest.GrowthInverse | main.py:80 | 1 + pct_change is defined from row 1 on and carries close[i - 1] to close[i] |
| Backtest.Telescope | main.py:80 | for growth factors that carry each close to the next, close[0] times their product up to row i is close[i] |
| Backtest.AssetReturns | main.py:80 | Asset_Returns has one row per close and is NaN exactly on row 0 |
| Backtest.StrategyReturns | main.py:81 | Strategy_Returns has one row per close and is defined exactly on the rows i >= 1 whose position is defined |
| Backtest.Diff | main.py:84 | `diff()` is defined on row i exactly when i > 0 and rows i - 1 and i are defined, and then row i is row i - 1 plus the difference |
| Backtest.CumProd | main.py:80-81 | `cumprod` is defined exactly where its input is defined |
| Backtest.RunningProduct | main.py:80-81 | the accumulating loop writes exactly the cumulative product of the defined cells, NaN cells staying NaN |
| Backtest.AssetReturnsTelescope | main.py:80 | Asset_Returns is NaN on row 0 and equals close[i] / close[0] - 1 on every row i >= 1 |
| Backtest.GrowthTelescopes | main.py:80 | the product of 1 + pct_change over rows 1..i is close[i] / close[0] |
| Backtest.StrategyReturnsStep | main.py:81 | Strategy_Returns is defined from row 1 on, equals r[1] * position[1] on row 1, and 1 + its value on row i is (1 + its value on row i - 1) times (1 + r[i] * position[i]) |
| Backtest.AlwaysLongIsBuyAndHold | main.py:80-81 | with the position +1 on every row from 1 on, Strategy_Returns equals Asset_Returns |
| Backtest.EventRows | main.py:84 | on a position column, row 0 is never an event, row 1 always is, and a row i >= 2 is one exactly when its position differs from row i - 1 |
| Backtest.SignalEvents | main.py:84-86 | a row is a BUY row exactly when it is an event with position +1, and a SELL row exactly when it is an event with position -1 |
| Backtest.HeldBetweenEvents | main.py:84 | between an event and the next one the position stays what it was at the first |
| Backtest.EventsAlternate | main.py:84-86 | two consecutive events carry different positions, so BUY and SELL alternate |
| Series.TrueRows | main.py:85-86 | a boolean filter keeps, in increasing order, exactly the rows where the mask is true |
| Series.Shift | main.py:67 | `shift(1)` keeps the length, makes row 0 NaN and moves every other value one row later |
| Backtest.SignalChange | main.py:84 | `diff() != 0` is false on row i exactly when i > 0 and the positions on rows i - 1 and i are both defined and equal; NaN on either side counts as a change |
| Backtest.SignalRows | main.py:85-86 | the rows kept by the mask "changed and position == side" are, in increasing order, exactly the changed rows holding that side |
| Backtest.BuyRows | main.py:85 | the BUY rows are exactly the changed rows whose position is +1 |
| Backtest.SellRows | main.py:86 | the SELL rows are exactly the changed rows whose position is -1 |
| Frames.Table.DropNa | main.py:35 | `dropna()` keeps the columns, leaves no NaN, and keeps exactly the rows without NaN, in increasing order, each with its label, close and every cell unchanged |
| Frames.Table.DropNaKeepsSuffix | main.py:35 | when exactly the rows from lo on are complete, `dropna()` is the table from row lo on, labels and cells unchanged |
| Frames.Table.DropNaKeepsNothing | main.py:35 | when no row is complete, `dropna()` leaves no row |
| Frames.WithMovingAverages | main.py:32-33 | the frame gains "5_ma" and "20_ma" holding the rolling means for the fast and the slow window, keeping its index, closes and every other column |
| Frames.WithPosition | main.py:66-67 | the frame gains Strategy holding the lagged crossover of "{fast}_ma" and "{slow}_ma", keeping its index, closes and every other column |
| Frames.WithBacktest | main.py:80-84 | Asset_Returns is the compounded asset return of the closes, Strategy_Returns the compounded return of the Strategy column and Signal_Change its `diff() != 0`, while index, closes and every other column are left as they were |
| Frames.MovingAverages | main.py:27-35 | a missing or empty frame fails with the frame unchanged, a negative window fails (after writing the fast column when only the slow window is negative), otherwise the frame gains "5_ma" and "20_ma" and a fresh `dropna()` copy is returned |
| Frames.Strategy | main.py:57-68 | a missing or empty frame, or one without "{fast}_ma" or "{slow}_ma", fails with the frame unchanged; otherwise the frame gains the Strategy column and the same frame is returned |
| Frames.TestStrategy | main.py:72-86 | a missing or empty frame, or one without Strategy, fails with the frame unchanged; otherwise the frame gains the three columns, a fresh `dropna()` copy is returned and the BUY and SELL labels are the labels of the filtered rows |
| Pipeline.MovingAveragesTrim | main.py:32-35 | after the averages, `dropna()` keeps exactly the rows from max(fast, slow) - 1 on when both windows are positive and fit, and no row otherwise |
| Pipeline.CompleteRows | main.py:32-35 | row i has both averages defined exactly when both windows are positive and max(fast, slow) - 1 <= i |
| Pipeline.TrimmedShape | main.py:32-35 | the trimmed frame holds labels max(fast, slow) - 1..n-1 with their closes, the two average columns and no NaN |
| Pipeline.BacktestDropsFirstRow | main.py:115 | on a frame without NaN, the final `dropna()` drops exactly the first row and keeps the rest |
| Pipeline.PositionsReported | main.py:66-67 | on the trimmed frame the Strategy column is a position column and each later row is +1 exactly when the fast average was strictly above the slow one on the row before |
| Pipeline.AssetReturnsReported | main.py:80 | the reported Asset_Returns on row m + j is close[m + j] / close[m - 1] - 1 |
| Pipeline.StrategyReturnsReported | main.py:81 | the reported Strategy_Returns compounds r * position from the close of row m - 1 |
| Pipeline.SignalsReported | main.py:84-86 | the BUY labels are row m and every later row whose position differs from the row before, when the new position is +1; likewise SELL for -1 |
| Pipeline.FinalDropNa | main.py:115 | after the two earlier stages, the final `dropna()` keeps the trimmed frame from its second row on |
| Pipeline.FinalRows | main.py:115 | the returned frame holds labels max(fast, slow)..n-1, their closes, the Strategy column and both return columns |
| Pipeline.PipelineReports | main.py:120-123 | after all three stages the returned frame and the BUY/SELL labels are the reported positions, asset and strategy returns and signal rows, row by row, in terms of the downloaded closes |
| Pipeline.Run | main.py:120-123 | an empty history fails in `moving_averages`, a negative window fails there too, windows that do not fit (or a zero window) fail in `strategy` as an empty frame, windows other than 5 and 20 fail in `strategy` for a missing column, and otherwise the result is the frame and labels `PipelineReports` describes |

## Left out

- `get_data` (main.py:17-25): the download through yfinance and the
  lookback slice are not modelled; `Pipeline.Run` takes the close series as
  a parameter and labels its rows 0..n-1 instead of by date.
- The other downloaded columns (Open, High, Low, Volume): the model keeps
  only Close; a NaN in those columns would also make `dropna()` drop a row.
- Plotting and saving the two charts (main.py:37-52, 88-114): no logical
  content. The BUY and SELL rows the chart marks are returned as labels.
- The `ticker`, `fast` and `slow` parameters of `test_strategy`, which only
  label the chart.
- Printing and `exit(1)` in the script (main.py:124-133).
- The text of each RuntimeError: every stage's failure is one
  `RuntimeError(stage, reason)` value whose reason names the branch taken.
- Floating-point rounding and overflow: prices and returns are exact reals.
- NaN or infinite closes: the close column is a sequence of reals.
- Frames.TestStrategy: requires that no close is zero, because
  `pct_change` would divide by zero and give an infinite return, which
  exact reals cannot express. This also excludes a zero close on the last
  row, where pandas would give a finite return of -1 and no infinity; the
  model does not cover that history.
- Pipeline.Run: requires that no close is zero, for the same reason. This
  also excludes a zero close on rows 0..max(fast, slow) - 2, which the first
  `dropna()` removes before `pct_change` runs, so main.py would handle it;
  the model does not cover those histories.
- Backtest.PctChange: requires that no close is zero, for the same reason.
- `Frames.Frame` aliasing: a stage receives one frame; the model does not
  follow other references to it.
