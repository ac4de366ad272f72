/**
 * The backtest half of the pipeline (main.py `test_strategy`): cumulative
 * returns of the asset and of the strategy, and the rows where the position
 * changes, tagged BUY or SELL.
 */
module Backtest {
  import opened Wrappers
  import opened Series

  /** pandas `close.pct_change()`: NaN on the first row, then close[i] / close[i - 1] - 1. */
  function PctChange(close: seq<real>): (r: Series)
    requires 0.0 !in close
    ensures |r| == |close|
    ensures forall i :: 0 <= i < |r| ==> (r[i].Some? <==> i >= 1)
  {
    seq(|close|, i requires 0 <= i < |close| =>
      if i == 0 then None else Some(close[i] / close[i - 1] - 1.0))
  }

  /** Growing the close of row i - 1 by the return of row i gives the close of row i back. */
  lemma PctChangeInverse(close: seq<real>, i: nat)
    requires 0.0 !in close && 1 <= i < |close|
    ensures close[i - 1] * (1.0 + PctChange(close)[i].value) == close[i]
  {
    assert close[i - 1] in close;
    RatioInverse(close[i - 1], close[i]);
  }

  /** The daily growth factor 1 + pct_change of row i carries the close of row i - 1 to the close of row i. */
  lemma GrowthInverse(close: seq<real>, i: nat)
    requires 0.0 !in close && 1 <= i < |close|
    ensures Plus(PctChange(close), 1.0)[i].Some?
    ensures close[i - 1] * Plus(PctChange(close), 1.0)[i].value == close[i]
  {
    var r := PctChange(close)[i].value;
    assert Plus(PctChange(close), 1.0)[i] == Some(r + 1.0);
    PctChangeInverse(close, i);
    assert close[i - 1] * (1.0 + r) == close[i];
  }

  /** Growing prev by the return next / prev - 1 gives next back. */
  lemma RatioInverse(prev: real, next: real)
    requires prev != 0.0
    ensures prev * (1.0 + (next / prev - 1.0)) == next
  {
    assert 1.0 + (next / prev - 1.0) == next / prev;
  }

  /** Adds a constant to every cell; NaN stays NaN. */
  function Plus(s: Series, x: real): (r: Series)
    ensures |r| == |s|
  {
    seq(|s|, i requires 0 <= i < |s| => if s[i].Some? then Some(s[i].value + x) else None)
  }

  /** Row-wise product of two aligned columns; NaN on either side gives NaN. */
  function Times(a: Series, b: Series): (r: Series)
    requires |a| == |b|
    ensures |r| == |a|
  {
    seq(|a|, i requires 0 <= i < |a| =>
      if a[i].Some? && b[i].Some? then Some(a[i].value * b[i].value) else None)
  }

  /** Product of the defined cells of a column (NaN cells are skipped, as `cumprod` does). */
  function Prod(s: Series): real
  {
    if s == [] then 1.0
    else Prod(s[..|s| - 1]) * (if s[|s| - 1].Some? then s[|s| - 1].value else 1.0)
  }

  /**
   * pandas `cumprod()` with its default `skipna=True`: a NaN cell stays NaN
   * and does not interrupt the running product of the cells before it.
   */
  function CumProd(s: Series): (r: Series)
    ensures |r| == |s|
    ensures forall i :: 0 <= i < |s| ==> (r[i].Some? <==> s[i].Some?)
  {
    seq(|s|, i requires 0 <= i < |s| => if s[i].Some? then Some(Prod(s[..i + 1])) else None)
  }

  /**
   * The running accumulation behind `cumprod`: one pass that multiplies the
   * defined cells into an accumulator and writes it out row by row.
   */
  method RunningProduct(s: Series) returns (r: Series)
    ensures r == CumProd(s)
  {
    var out := new Option<real>[|s|];
    var acc := 1.0;
    for i := 0 to |s|
      invariant acc == Prod(s[..i])
      invariant forall k :: 0 <= k < i ==> out[k] == CumProd(s)[k]
    {
      assert s[..i + 1][..i] == s[..i];
      if s[i].Some? {
        acc := acc * s[i].value;
        out[i] := Some(acc);
      } else {
        out[i] := None;
      }
    }
    assert s[..|s|] == s;
    r := out[..];
  }

  /** `(1 + steps).cumprod() - 1`: compounding per-row returns into a cumulative return. */
  function Compounded(steps: Series): (r: Series)
    ensures |r| == |steps|
  {
    Plus(CumProd(Plus(steps, 1.0)), -1.0)
  }

  /** The Asset_Returns column: buy-and-hold cumulative return. */
  function AssetReturns(close: seq<real>): (r: Series)
    requires 0.0 !in close
    ensures |r| == |close|
    ensures forall i :: 0 <= i < |r| ==> (r[i].Some? <==> i >= 1)
  {
    Compounded(PctChange(close))
  }

  /** The Strategy_Returns column: the daily return scaled by the position held, compounded. */
  function StrategyReturns(close: seq<real>, pos: Series): (r: Series)
    requires 0.0 !in close && |pos| == |close|
    ensures |r| == |close|
    ensures forall i :: 0 <= i < |r| ==> (r[i].Some? <==> i >= 1 && pos[i].Some?)
  {
    Compounded(Times(PctChange(close), pos))
  }

  /** Extending a prefix by one cell multiplies its product by that cell (by 1 if it is NaN). */
  lemma ProdStep(s: Series, i: nat)
    requires i < |s|
    ensures Prod(s[..i + 1]) == Prod(s[..i]) * (if s[i].Some? then s[i].value else 1.0)
  {
    assert s[..i + 1][..i] == s[..i];
  }

  /** One more factor of a telescoping product: a * p reaches prev, and prev * step reaches next. */
  lemma MulStep(a: real, p: real, step: real, prev: real, next: real)
    requires a * p == prev && prev * step == next
    ensures a * (p * step) == next
  {
    calc {
      a * (p * step);
      (a * p) * step;
      prev * step;
      next;
    }
  }

  /** Solving a * p == b for p. */
  lemma DivideBack(a: real, p: real, b: real)
    requires a != 0.0 && a * p == b
    ensures p == b / a
  {
  }

  /** The compounded daily price ratios up to row i telescope to close[i] / close[0]. */
  lemma GrowthTelescopes(close: seq<real>, i: nat)
    requires 0.0 !in close && i < |close|
    ensures Prod(Plus(PctChange(close), 1.0)[..i + 1]) == close[i] / close[0]
  {
    var g := Plus(PctChange(close), 1.0);
    GrowthCarries(close);
    Telescope(close, g, i);
    assert close[0] in close;
    DivideBack(close[0], Prod(g[..i + 1]), close[i]);
  }

  /** Every daily growth factor from row 1 on carries the previous close to the current one. */
  lemma GrowthCarries(close: seq<real>)
    requires 0.0 !in close
    ensures Carries(close, Plus(PctChange(close), 1.0))
  {
    var g := Plus(PctChange(close), 1.0);
    forall k | 1 <= k < |g|
      ensures CarriesAt(close, g, k)
    {
      GrowthInverse(close, k);
    }
  }

  /** Column g, defined from row 1 on, multiplies each close into the next one. */
  predicate Carries(close: seq<real>, g: Series)
  {
    |g| == |close| && forall k :: 1 <= k < |g| ==> CarriesAt(close, g, k)
  }

  /** Row k of g is defined and multiplies close[k - 1] into close[k]. */
  predicate CarriesAt(close: seq<real>, g: Series, k: nat)
    requires 1 <= k < |close| == |g|
  {
    g[k].Some? && close[k - 1] * g[k].value == close[k]
  }

  /**
   * Telescoping over any column of growth factors that carry each close to
   * the next, NaN on the first row: the product up to row i carries close[0]
   * to close[i].
   */
  lemma {:induction false} Telescope(close: seq<real>, g: Series, i: nat)
    requires i < |close| && Carries(close, g) && g[0].None?
    ensures close[0] * Prod(g[..i + 1]) == close[i]
  {
    ProdStep(g, i);
    if i == 0 {
      assert Prod(g[..0]) == 1.0;
    } else {
      Telescope(close, g, i - 1);
      assert CarriesAt(close, g, i);
      MulStep(close[0], Prod(g[..i]), g[i].value, close[i - 1], close[i]);
    }
  }

  /**
   * Buy-and-hold: NaN on the first row, and from then on the cumulative
   * return is close[i] / close[0] - 1.
   */
  lemma AssetReturnsTelescope(close: seq<real>)
    requires 0.0 !in close
    ensures |close| > 0 ==> AssetReturns(close)[0].None?
    ensures forall i :: 1 <= i < |close| ==> AssetReturns(close)[i] == Some(close[i] / close[0] - 1.0)
  {
    forall i | 1 <= i < |close|
      ensures AssetReturns(close)[i] == Some(close[i] / close[0] - 1.0)
    {
      GrowthTelescopes(close, i);
    }
  }

  /**
   * Compounding step by step: where the position is defined from row 1 on,
   * 1 + return on row i is (1 + return on row i - 1) times (1 + r[i] * position[i]),
   * starting from r[1] * position[1] on row 1.
   */
  lemma {:induction false} StrategyReturnsStep(close: seq<real>, pos: Series, i: nat)
    requires 0.0 !in close && |pos| == |close|
    requires forall k :: 1 <= k < |pos| ==> pos[k].Some?
    requires 1 <= i < |close|
    ensures StrategyReturns(close, pos)[i].Some?
    ensures var step := 1.0 + PctChange(close)[i].value * pos[i].value;
      i == 1 ==> StrategyReturns(close, pos)[i].value == step - 1.0
    ensures var step := 1.0 + PctChange(close)[i].value * pos[i].value;
      i >= 2 ==> (StrategyReturns(close, pos)[i - 1].Some? &&
                  1.0 + StrategyReturns(close, pos)[i].value == (1.0 + StrategyReturns(close, pos)[i - 1].value) * step)
  {
    var g := Plus(Times(PctChange(close), pos), 1.0);
    assert g[..i + 1][..i] == g[..i];
    assert close[i - 1] in close;
    if i == 1 {
      assert g[..1] == [None];
      assert Prod(g[..1]) == Prod([]) * 1.0;
    } else {
      assert close[i - 2] in close;
    }
  }

  /** Always long, the strategy earns exactly the buy-and-hold return. */
  lemma AlwaysLongIsBuyAndHold(close: seq<real>, pos: Series)
    requires 0.0 !in close && |pos| == |close|
    requires forall k :: 1 <= k < |pos| ==> pos[k] == Some(1.0)
    ensures StrategyReturns(close, pos) == AssetReturns(close)
  {
    var pct := PctChange(close);
    assert Times(pct, pos) == pct by {
      forall k | 0 <= k < |pct|
        ensures Times(pct, pos)[k] == pct[k]
      {
        if k > 0 {
          assert close[k - 1] in close;
        }
      }
    }
  }

  /** pandas `diff()`: NaN on the first row or next to a NaN, else the change from the row before. */
  function Diff(s: Series): (r: Series)
    ensures |r| == |s|
    ensures forall i :: 0 <= i < |s| ==> (r[i].Some? <==> i > 0 && s[i].Some? && s[i - 1].Some?)
    ensures forall i :: 0 < i < |s| && r[i].Some? ==> s[i].Some? && s[i - 1].Some? && s[i].value == s[i - 1].value + r[i].value
  {
    seq(|s|, i requires 0 <= i < |s| =>
      if i > 0 && s[i].Some? && s[i - 1].Some? then Some(s[i].value - s[i - 1].value) else None)
  }

  /**
   * The Signal_Change column, `diff() != 0`: NaN != 0 is true, so a row
   * whose difference is NaN counts as a change.
   */
  function SignalChange(pos: Series): (change: seq<bool>)
    ensures |change| == |pos|
    ensures forall i :: 0 <= i < |pos| ==>
      (!change[i] <==> i > 0 && pos[i].Some? && pos[i - 1].Some? && pos[i] == pos[i - 1])
  {
    var d := Diff(pos);
    seq(|d|, i requires 0 <= i < |d| => d[i] != Some(0.0))
  }

  /** The mask `Signal_Change & (Strategy == side)`. */
  function SideMask(pos: Series, side: real): (mask: seq<bool>)
    ensures |mask| == |pos|
  {
    var change := SignalChange(pos);
    seq(|pos|, i requires 0 <= i < |pos| => change[i] && pos[i] == Some(side))
  }

  /** The rows of `df[Signal_Change & (Strategy == side)]`, in row order. */
  function SignalRows(pos: Series, side: real): (rows: seq<nat>)
    ensures forall j :: 0 <= j < |rows| ==> rows[j] < |pos| && SignalChange(pos)[rows[j]] && pos[rows[j]] == Some(side)
    ensures forall i :: 0 <= i < |pos| && SignalChange(pos)[i] && pos[i] == Some(side) ==> i in rows
    ensures forall j, k :: 0 <= j < k < |rows| ==> rows[j] < rows[k]
  {
    TrueRows(SideMask(pos, side))
  }

  /** buy_signals: changed rows whose new position is long. */
  function BuyRows(pos: Series): (rows: seq<nat>)
    ensures forall j :: 0 <= j < |rows| ==> rows[j] < |pos| && SignalChange(pos)[rows[j]] && pos[rows[j]] == Some(1.0)
    ensures forall i :: 0 <= i < |pos| && SignalChange(pos)[i] && pos[i] == Some(1.0) ==> i in rows
  {
    SignalRows(pos, 1.0)
  }

  /** sell_signals: changed rows whose new position is short. */
  function SellRows(pos: Series): (rows: seq<nat>)
    ensures forall j :: 0 <= j < |rows| ==> rows[j] < |pos| && SignalChange(pos)[rows[j]] && pos[rows[j]] == Some(-1.0)
    ensures forall i :: 0 <= i < |pos| && SignalChange(pos)[i] && pos[i] == Some(-1.0) ==> i in rows
  {
    SignalRows(pos, -1.0)
  }

  /**
   * The shape of a Strategy column on a non-empty table: NaN on the first
   * row, +1 or -1 on every later row.
   */
  predicate IsPositionColumn(pos: Series)
  {
    |pos| > 0 && pos[0].None? && forall k :: 1 <= k < |pos| ==> pos[k] == Some(1.0) || pos[k] == Some(-1.0)
  }

  /** Whether row i is a signal event: a changed row whose position is +1 or -1. */
  predicate IsEvent(pos: Series, i: nat)
    requires i < |pos|
  {
    SignalChange(pos)[i] && (pos[i] == Some(1.0) || pos[i] == Some(-1.0))
  }

  /**
   * Which rows of a position column give an event: never row 0, always
   * row 1, and a later row exactly when its position differs from the row before.
   */
  lemma EventRows(pos: Series, i: nat)
    requires IsPositionColumn(pos) && i < |pos|
    ensures IsEvent(pos, i) <==> i == 1 || (i >= 2 && pos[i] != pos[i - 1])
  {
    if i >= 2 {
      assert pos[i] != pos[i - 1] <==> pos[i].value - pos[i - 1].value != 0.0;
    }
  }

  /** An event is a BUY exactly when the new position is +1 and a SELL exactly when it is -1. */
  lemma SignalEvents(pos: Series, i: nat)
    requires IsPositionColumn(pos) && i < |pos|
    ensures i in BuyRows(pos) <==> IsEvent(pos, i) && pos[i] == Some(1.0)
    ensures i in SellRows(pos) <==> IsEvent(pos, i) && pos[i] == Some(-1.0)
  {
    var buys, sells := SideMask(pos, 1.0), SideMask(pos, -1.0);
    assert i in TrueRows(buys) <==> buys[i];
    assert i in TrueRows(sells) <==> sells[i];
  }

  /** Between two events with no event in between, the position is constant up to the later one. */
  lemma {:induction false} HeldBetweenEvents(pos: Series, i: nat, j: nat)
    requires IsPositionColumn(pos) && 1 <= i < j < |pos|
    requires forall k :: i < k < j ==> !IsEvent(pos, k)
    ensures pos[j - 1] == pos[i]
  {
    if j - 1 > i {
      HeldBetweenEvents(pos, i, j - 1);
      EventRows(pos, j - 1);
    }
  }

  /**
   * Consecutive events alternate: the first event after a BUY is a SELL and
   * the first event after a SELL is a BUY.
   */
  lemma EventsAlternate(pos: Series, i: nat, j: nat)
    requires IsPositionColumn(pos) && i < j < |pos|
    requires IsEvent(pos, i) && IsEvent(pos, j)
    requires forall k :: i < k < j ==> !IsEvent(pos, k)
    ensures pos[i] != pos[j]
  {
    EventRows(pos, j);
    HeldBetweenEvents(pos, i, j);
  }
}
