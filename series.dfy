/**
 * Column-level building blocks shared by the indicator and the backtest:
 * float columns with NaN, sums, row filters and positional selection.
 */
module Series {
  import opened Wrappers

  /** A pandas float column; `None` is NaN. */
  type Series = seq<Option<real>>

  /** Lifts a column without NaN into a float column. */
  function Lift(s: seq<real>): (r: Series)
    ensures |r| == |s|
    ensures forall i :: 0 <= i < |s| ==> r[i] == Some(s[i])
  {
    seq(|s|, i requires 0 <= i < |s| => Some(s[i]))
  }

  /** The consecutive labels lo, lo+1, ..., hi-1. */
  function Range(lo: int, hi: int): (r: seq<int>)
    requires lo <= hi
    ensures |r| == hi - lo
    ensures forall j :: 0 <= j < |r| ==> r[j] == lo + j
  {
    seq(hi - lo, j requires 0 <= j < hi - lo => lo + j)
  }

  /** Extending a label range by one appends its upper end. */
  lemma RangeSnoc(lo: int, hi: int)
    requires lo <= hi
    ensures Range(lo, hi + 1) == Range(lo, hi) + [hi]
  {
    assert Range(lo, hi + 1)[..hi - lo] == Range(lo, hi);
  }

  /** Sum of a sequence of reals, accumulated from the front. */
  function Sum(s: seq<real>): real
  {
    if s == [] then 0.0 else Sum(s[..|s| - 1]) + s[|s| - 1]
  }

  /** Peeling the first element off a sum. */
  lemma {:induction false} SumFront(s: seq<real>)
    requires s != []
    ensures Sum(s) == s[0] + Sum(s[1..])
  {
    if |s| > 1 {
      SumFront(s[..|s| - 1]);
      assert s[..|s| - 1][1..] == s[1..][..|s[1..]| - 1];
    }
  }

  /** A sum of |s| terms, each between lo and hi, lies between |s|*lo and |s|*hi. */
  lemma {:induction false} SumBounds(s: seq<real>, lo: real, hi: real)
    requires forall k :: 0 <= k < |s| ==> lo <= s[k] <= hi
    ensures (|s| as real) * lo <= Sum(s) <= (|s| as real) * hi
  {
    if s != [] {
      SumBounds(s[..|s| - 1], lo, hi);
    }
  }

  /**
   * The ascending positions whose flag is true: the row selection behind
   * pandas' boolean-mask indexing and `dropna`.
   */
  function TrueRows(b: seq<bool>): (rows: seq<nat>)
    ensures forall j :: 0 <= j < |rows| ==> rows[j] < |b| && b[rows[j]]
    ensures forall i :: 0 <= i < |b| && b[i] ==> i in rows
    ensures forall j, k :: 0 <= j < k < |rows| ==> rows[j] < rows[k]
  {
    if b == [] then []
    else
      var front := TrueRows(b[..|b| - 1]);
      assert forall i :: 0 <= i < |b| - 1 ==> b[..|b| - 1][i] == b[i];
      front + (if b[|b| - 1] then [|b| - 1] else [])
  }

  /** Keeps the entries at the given positions, in that order. */
  function Select<T>(s: seq<T>, rows: seq<nat>): (r: seq<T>)
    requires forall j :: 0 <= j < |rows| ==> rows[j] < |s|
    ensures |r| == |rows|
    ensures forall j :: 0 <= j < |r| ==> r[j] == s[rows[j]]
  {
    seq(|rows|, j requires 0 <= j < |rows| => s[rows[j]])
  }

  /** Selecting the consecutive positions lo..|s|-1 is taking the suffix. */
  lemma SelectSuffix<T>(s: seq<T>, lo: nat)
    requires lo <= |s|
    ensures Select(s, Range(lo, |s|)) == s[lo..]
  {
  }

  /** A label lies among the selected consecutive labels exactly when its offset was selected. */
  lemma SelectRangeMembers(lo: int, hi: int, rows: seq<nat>, x: int)
    requires lo <= hi
    requires forall j :: 0 <= j < |rows| ==> rows[j] < hi - lo
    ensures x in Select(Range(lo, hi), rows) <==> lo <= x && x - lo in rows
  {
    var picked := Select(Range(lo, hi), rows);
    if lo <= x && x - lo in rows {
      var q :| 0 <= q < |rows| && rows[q] == x - lo;
      assert picked[q] == x;
    }
  }

  /** When exactly the positions from lo onward are flagged, the filter keeps lo..|b|-1. */
  lemma {:induction false} TrueRowsOfSuffix(b: seq<bool>, lo: nat)
    requires lo <= |b|
    requires forall i :: 0 <= i < |b| ==> (b[i] <==> lo <= i)
    ensures TrueRows(b) == Range(lo, |b|)
  {
    if |b| > lo {
      var front := b[..|b| - 1];
      assert TrueRows(front) == Range(lo, |b| - 1) by {
        assert forall i :: 0 <= i < |front| ==> front[i] == b[i];
        TrueRowsOfSuffix(front, lo);
      }
      assert TrueRows(b) == TrueRows(front) + [|b| - 1];
      RangeSnoc(lo, |b| - 1);
    } else {
      TrueRowsOfNone(b);
    }
  }

  /** When no position is flagged, the filter keeps nothing. */
  lemma TrueRowsOfNone(b: seq<bool>)
    requires forall i :: 0 <= i < |b| ==> !b[i]
    ensures TrueRows(b) == []
  {
  }

  /**
   * pandas `shift(1)`: every value moves one row later, the first row
   * becomes NaN and the last value falls off.
   */
  function Shift(s: Series): (r: Series)
    ensures |r| == |s|
    ensures |s| > 0 ==> r[0].None?
    ensures forall i :: 1 <= i < |s| ==> r[i] == s[i - 1]
  {
    if s == [] then [] else [None] + s[..|s| - 1]
  }

  /** Number of non-NaN cells of a column (pandas `count`). */
  function CountDefined(s: Series): nat
  {
    if s == [] then 0 else CountDefined(s[..|s| - 1]) + (if s[|s| - 1].Some? then 1 else 0)
  }

  /** A column that is NaN exactly before row lo has |s| - lo defined cells. */
  lemma {:induction false} CountDefinedOfSuffix(s: Series, lo: nat)
    requires lo <= |s|
    requires forall i :: 0 <= i < |s| ==> (s[i].Some? <==> lo <= i)
    ensures CountDefined(s) == |s| - lo
  {
    if |s| > lo {
      CountDefinedOfSuffix(s[..|s| - 1], lo);
    } else {
      CountDefinedOfNone(s);
    }
  }

  /** A column of NaN only has no defined cell. */
  lemma {:induction false} CountDefinedOfNone(s: Series)
    requires forall i :: 0 <= i < |s| ==> s[i].None?
    ensures CountDefined(s) == 0
  {
    if s != [] {
      CountDefinedOfNone(s[..|s| - 1]);
    }
  }
}
