/**
 * Summary metrics of calculator.py: NPV (line 60), payback year (line 66),
 * valuation and the two multiples (lines 132-139). All of them are computed
 * from `cash_flows`, the unrounded net incomes, except the multiples, whose
 * denominators are totals of the rounded display columns.
 */
module Metrics {
  import opened Inputs
  import opened Projection

  /** The discounted cash flows `cf / 1.12 ** (i + 1)` of the comprehension on line 60. */
  function Discounted(cashFlows: seq<real>): (d: seq<real>)
    ensures |d| == |cashFlows|
  {
    seq(|cashFlows|, i requires 0 <= i < |cashFlows| => cashFlows[i] / DiscountFactor(i + 1))
  }

  /** NPV, line 60: the sum of the discounted cash flows. The investment is not subtracted. */
  function Npv(cashFlows: seq<real>): real {
    Sum(Discounted(cashFlows))
  }

  /** A further year adds its cash flow discounted by that year's factor. */
  lemma NpvSnoc(cashFlows: seq<real>, x: real)
    ensures Npv(cashFlows + [x]) == Npv(cashFlows) + x / DiscountFactor(|cashFlows| + 1)
  {
    var d := Discounted(cashFlows + [x]);
    assert d[..|d| - 1] == Discounted(cashFlows);
  }

  /** NPV of the projection is the sum of its unrounded DCF column. */
  lemma NpvIsSumOfDcf(p: Params, n: nat)
    ensures Npv(NetIncomes(p, n)) == Sum(seq(n, i requires 0 <= i < n => Line(p, i + 1).dcf))
  {
    var cfs := NetIncomes(p, n);
    forall i | 0 <= i < n
      ensures Discounted(cfs)[i] == Line(p, i + 1).dcf
    {
      LineFigures(p, i + 1);
    }
    assert Discounted(cfs) == seq(n, i requires 0 <= i < n => Line(p, i + 1).dcf);
  }

  /**
   * Discounting never adds value: with no loss year the NPV lies between 0
   * and the undiscounted total.
   */
  lemma {:induction false} NpvBounds(cashFlows: seq<real>)
    requires forall i :: 0 <= i < |cashFlows| ==> cashFlows[i] >= 0.0
    ensures 0.0 <= Npv(cashFlows) <= Sum(cashFlows)
  {
    if cashFlows != [] {
      var init, x := cashFlows[..|cashFlows| - 1], cashFlows[|cashFlows| - 1];
      assert cashFlows == init + [x];
      NpvBounds(init);
      NpvSnoc(init, x);
      var d := DiscountFactor(|init| + 1);
      assert x / d <= x by {
        assert x / d * d == x;
      }
    }
  }

  /** Running sums of a list, as `np.cumsum` returns them. */
  function Cumsum(xs: seq<real>): (sums: seq<real>)
    ensures |sums| == |xs|
    ensures forall k :: 0 <= k < |xs| ==> sums[k] == Sum(xs[..k + 1])
  {
    if xs == [] then []
    else
      var init := xs[..|xs| - 1];
      var prev := Cumsum(init);
      assert xs[..|xs|] == xs;
      assert forall j :: 1 <= j <= |init| ==> xs[..j] == init[..j];
      assert |init| > 0 ==> init[..|init|] == init;
      prev + [(if prev == [] then 0.0 else prev[|prev| - 1]) + xs[|xs| - 1]]
  }

  /** The payback year (1-based) or the "beyond horizon" sentinel. */
  datatype PaybackPeriod = PaybackYear(year: nat) | BeyondHorizon

  /**
   * `next(...)` over the running sums from index i: the 1-based position of
   * the first sum that reaches the threshold, or the sentinel when none does.
   */
  function FirstReaching(sums: seq<real>, threshold: real, i: nat): (r: PaybackPeriod)
    requires i <= |sums|
    ensures r.PaybackYear? ==> i < r.year <= |sums| && sums[r.year - 1] >= threshold
    ensures r.PaybackYear? ==> forall j :: i <= j < r.year - 1 ==> sums[j] < threshold
    ensures r.BeyondHorizon? <==> forall j :: i <= j < |sums| ==> sums[j] < threshold
    decreases |sums| - i
  {
    if i == |sums| then BeyondHorizon
    else if sums[i] >= threshold then PaybackYear(i + 1)
    else FirstReaching(sums, threshold, i + 1)
  }

  /**
   * Payback, line 66: the smallest year k whose cumulative net income
   * (sum of the first k cash flows) reaches the investment; the sentinel
   * exactly when no year within the horizon does.
   */
  function Payback(cashFlows: seq<real>, investment: real): (r: PaybackPeriod)
    ensures r.PaybackYear? ==> 1 <= r.year <= |cashFlows| && Sum(cashFlows[..r.year]) >= investment
    ensures r.PaybackYear? ==> forall k :: 1 <= k < r.year ==> Sum(cashFlows[..k]) < investment
    ensures r.BeyondHorizon? <==> forall k :: 1 <= k <= |cashFlows| ==> Sum(cashFlows[..k]) < investment
  {
    var sums := Cumsum(cashFlows);
    var r := FirstReaching(sums, investment, 0);
    assert forall k :: 1 <= k <= |cashFlows| ==> sums[k - 1] == Sum(cashFlows[..k]);
    r
  }

  /** A first year whose cash flow alone covers the investment is the payback year. */
  lemma PaybackInFirstYear(cashFlows: seq<real>, investment: real)
    requires |cashFlows| >= 1 && cashFlows[0] >= investment
    ensures Payback(cashFlows, investment) == PaybackYear(1)
  {
    assert cashFlows[..1] == [cashFlows[0]];
    assert [cashFlows[0]][..0] == [];
    assert Sum(cashFlows[..1]) == cashFlows[0];
  }

  /** A horizon whose total covers the investment has a payback year. */
  lemma PaybackWhenTotalCovers(cashFlows: seq<real>, investment: real)
    requires |cashFlows| >= 1 && Sum(cashFlows) >= investment
    ensures Payback(cashFlows, investment).PaybackYear?
  {
    assert cashFlows[..|cashFlows|] == cashFlows;
  }

  /** With no loss year, the running sum never exceeds the total. */
  lemma {:induction false} PrefixAtMostTotal(xs: seq<real>, k: nat)
    requires forall i :: 0 <= i < |xs| ==> xs[i] >= 0.0
    requires k <= |xs|
    ensures Sum(xs[..k]) <= Sum(xs)
  {
    if k < |xs| {
      var init := xs[..|xs| - 1];
      assert xs[..k] == init[..k];
      PrefixAtMostTotal(init, k);
    } else {
      assert xs[..k] == xs;
    }
  }

  /** With no loss year, a total short of the investment means no payback within the horizon. */
  lemma PaybackBeyondWhenShort(cashFlows: seq<real>, investment: real)
    requires forall i :: 0 <= i < |cashFlows| ==> cashFlows[i] >= 0.0
    requires Sum(cashFlows) < investment
    ensures Payback(cashFlows, investment) == BeyondHorizon
  {
    forall k | 1 <= k <= |cashFlows|
      ensures Sum(cashFlows[..k]) < investment
    {
      PrefixAtMostTotal(cashFlows, k);
    }
  }

  /** A zero investment is not always recovered in year 1: a first-year loss leaves the sum below 0. */
  lemma ZeroInvestmentWithLoss()
    ensures Payback([-1.0], 0.0) == BeyondHorizon
  {
    assert [-1.0][..1] == [-1.0];
  }

  /** A total short of the investment does not rule out payback: an early year may reach it before a loss. */
  lemma ShortTotalCanStillPayBack()
    ensures Sum([10.0, -10.0]) < 5.0
    ensures Payback([10.0, -10.0], 5.0) == PaybackYear(1)
  {
    PaybackInFirstYear([10.0, -10.0], 5.0);
  }

  /**
   * In the projection, the payback year is the first year whose running
   * total of net income (the unrounded cumulative column) reaches the investment.
   */
  lemma PaybackIsFirstCoveredYear(p: Params, n: nat, year: nat)
    requires Payback(NetIncomes(p, n), p.investment) == PaybackYear(year)
    ensures 1 <= year <= n && Cumulative(p, year) >= p.investment
    ensures forall k :: 1 <= k < year ==> Cumulative(p, k) < p.investment
  {
    var cfs := NetIncomes(p, n);
    NetIncomesPrefix(p, n, year);
    forall k | 1 <= k < year
      ensures Cumulative(p, k) < p.investment
    {
      NetIncomesPrefix(p, n, k);
    }
  }

  /** A valuation multiple, or "N/A" when its denominator is zero. */
  datatype Multiple = NotComputable | Ratio(value: real)

  /** `valuation / total if total else "N/A"` (lines 138-139), before display rounding. */
  function MultipleOf(valuation: real, total: int): (m: Multiple)
    ensures m.NotComputable? <==> total == 0
    ensures m.Ratio? ==> m.value * (total as real) == valuation
  {
    if total != 0 then Ratio(valuation / (total as real)) else NotComputable
  }

  /** Sum of a column of whole numbers (pandas `Series.sum`). */
  function IntSum(xs: seq<int>): int {
    if xs == [] then 0 else IntSum(xs[..|xs| - 1]) + xs[|xs| - 1]
  }

  /** 2^63: an int64 holds the whole numbers from -2^63 up to 2^63 - 1. */
  const Int64Bound: int := 0x8000_0000_0000_0000
  /** 2^64: fixed-width 64-bit addition works modulo this. */
  const Modulus64: int := 0x1_0000_0000_0000_0000

  predicate FitsInt64(x: int) {
    -Int64Bound <= x < Int64Bound
  }

  predicate FitsUint64(x: int) {
    0 <= x < Modulus64
  }

  predicate AllFitInt64(xs: seq<int>) {
    forall i :: 0 <= i < |xs| ==> FitsInt64(xs[i])
  }

  predicate AllFitUint64(xs: seq<int>) {
    forall i :: 0 <= i < |xs| ==> FitsUint64(xs[i])
  }

  /** `x` modulo 2^64, as a wrapping uint64 addition leaves it. */
  function WrapUint64(x: int): (r: int)
    ensures FitsUint64(r)
    ensures FitsUint64(x) ==> r == x
  {
    x % Modulus64
  }

  /** `x` brought into the int64 range modulo 2^64, as a wrapping int64 addition leaves it. */
  function WrapInt64(x: int): (r: int)
    ensures FitsInt64(r)
    ensures FitsInt64(x) ==> r == x
  {
    (x + Int64Bound) % Modulus64 - Int64Bound
  }

  /**
   * `Series.sum()` of a column of Python ints (lines 132-133). When every
   * value fits in int64 the column is stored as int64, and numpy's sum wraps
   * modulo 2^64 into the int64 range. Otherwise, when every value is
   * non-negative and fits in 64 unsigned bits, the column is uint64 and the
   * sum wraps modulo 2^64. Otherwise the column holds Python ints and the
   * sum is exact.
   */
  function ColumnSum(xs: seq<int>): int {
    if AllFitInt64(xs) then WrapInt64(IntSum(xs))
    else if AllFitUint64(xs) then WrapUint64(IntSum(xs))
    else IntSum(xs)
  }

  /** The column total is the exact sum whenever the exact sum fits in int64. */
  lemma ColumnSumExact(xs: seq<int>)
    requires FitsInt64(IntSum(xs))
    ensures ColumnSum(xs) == IntSum(xs)
  {
    if AllFitUint64(xs) {
      IntSumNonNegative(xs);
    }
  }

  /** A column of non-negative values has a non-negative sum. */
  lemma {:induction false} IntSumNonNegative(xs: seq<int>)
    requires forall i :: 0 <= i < |xs| ==> xs[i] >= 0
    ensures IntSum(xs) >= 0
  {
    if xs != [] {
      IntSumNonNegative(xs[..|xs| - 1]);
    }
  }

  /** The int64 wrap changes a number by a multiple of 2^64. */
  lemma WrapInt64Congruent(x: int)
    ensures (x - WrapInt64(x)) % Modulus64 == 0
  {
    assert x - WrapInt64(x) == (x + Int64Bound) / Modulus64 * Modulus64;
  }

  /** The uint64 wrap changes a number by a multiple of 2^64. */
  lemma WrapUint64Congruent(x: int)
    ensures (x - WrapUint64(x)) % Modulus64 == 0
  {
    assert x - WrapUint64(x) == x / Modulus64 * Modulus64;
  }

  /** The column total always agrees with the exact sum modulo 2^64. */
  lemma ColumnSumCongruent(xs: seq<int>)
    ensures (IntSum(xs) - ColumnSum(xs)) % Modulus64 == 0
  {
    WrapInt64Congruent(IntSum(xs));
    WrapUint64Congruent(IntSum(xs));
  }

  /**
   * Two int64 values whose exact sum is 2^63 total to -2^63: the wrap turns a
   * column of positive revenues into a negative total.
   */
  lemma ColumnSumWraps()
    ensures ColumnSum([0x4000_0000_0000_0000, 0x4000_0000_0000_0000]) == -0x8000_0000_0000_0000
  {
    var xs := [0x4000_0000_0000_0000, 0x4000_0000_0000_0000];
    assert IntSum(xs) == 0x8000_0000_0000_0000 by {
      assert xs[..1] == [0x4000_0000_0000_0000];
      assert xs[..1][..0] == [];
    }
  }

  /** The rounded revenue column of the table. */
  function RevenueColumn(rows: seq<Row>): (col: seq<int>)
    ensures |col| == |rows|
    ensures forall i :: 0 <= i < |rows| ==> col[i] == rows[i].revenue
  {
    seq(|rows|, i requires 0 <= i < |rows| => rows[i].revenue)
  }

  /** The rounded EBITDA column of the table. */
  function EbitdaColumn(rows: seq<Row>): (col: seq<int>)
    ensures |col| == |rows|
    ensures forall i :: 0 <= i < |rows| ==> col[i] == rows[i].ebitda
  {
    seq(|rows|, i requires 0 <= i < |rows| => rows[i].ebitda)
  }

  /** `revenue_total`, line 132: the total of the rounded revenue column. */
  function RevenueTotal(rows: seq<Row>): int {
    ColumnSum(RevenueColumn(rows))
  }

  /** `ebitda_total`, line 133: the total of the rounded EBITDA column. */
  function EbitdaTotal(rows: seq<Row>): int {
    ColumnSum(EbitdaColumn(rows))
  }

  /** The two multiples of the Multiples sheet. */
  datatype Multiples = Multiples(evRevenue: Multiple, evEbitda: Multiple)

  /**
   * Lines 134-139: each multiple is the valuation over a column total
   * (lines 132-133), "N/A" exactly when that total is zero.
   */
  function ValuationMultiples(valuation: real, revenueTotal: int, ebitdaTotal: int): (m: Multiples)
    ensures m.evRevenue.NotComputable? <==> revenueTotal == 0
    ensures m.evRevenue.Ratio? ==> m.evRevenue.value * (revenueTotal as real) == valuation
    ensures m.evEbitda.NotComputable? <==> ebitdaTotal == 0
    ensures m.evEbitda.Ratio? ==> m.evEbitda.value * (ebitdaTotal as real) == valuation
  {
    Multiples(MultipleOf(valuation, revenueTotal), MultipleOf(valuation, ebitdaTotal))
  }

  /** A column of zeros sums to zero. */
  lemma {:induction false} IntSumZero(xs: seq<int>)
    requires forall i :: 0 <= i < |xs| ==> xs[i] == 0
    ensures IntSum(xs) == 0
  {
    if xs != [] {
      IntSumZero(xs[..|xs| - 1]);
    }
  }

  /**
   * No first-year revenue gives a zero revenue total whatever the growth (when
   * rounding maps 0 to 0), so EV/Revenue is "N/A" rather than a division by zero.
   */
  lemma ZeroRevenueNotComputable(p: Params, n: nat, round: real -> int, valuation: real, ebitdaTotal: int)
    requires p.revenueYear1 == 0.0 && round(0.0) == 0
    ensures RevenueTotal(Rows(p, n, round)) == 0
    ensures ValuationMultiples(valuation, RevenueTotal(Rows(p, n, round)), ebitdaTotal).evRevenue == NotComputable
  {
    var rows := Rows(p, n, round);
    forall i | 0 <= i < n
      ensures rows[i].revenue == 0
    {
    }
    IntSumZero(RevenueColumn(rows));
  }

  /**
   * Two years of revenue 2^62 each: the int64 column total wraps to -2^63,
   * so a positive valuation gives a negative EV/Revenue.
   */
  lemma WrappedRevenueFlipsSign()
    ensures var year := Row(1, 0x4000_0000_0000_0000, 0, 0, 0, 1, 0, 0, 0, 0);
            var total := RevenueTotal([year, year.(year := 2)]);
            total == -0x8000_0000_0000_0000
            && ValuationMultiples(1.0, total, 2).evRevenue == Ratio(-1.0 / 0x8000_0000_0000_0000 as real)
  {
    var year := Row(1, 0x4000_0000_0000_0000, 0, 0, 0, 1, 0, 0, 0, 0);
    var rows := [year, year.(year := 2)];
    assert RevenueColumn(rows) == [0x4000_0000_0000_0000, 0x4000_0000_0000_0000];
    ColumnSumWraps();
  }
}
