/**
 * The per-year projection of calculator.py (lines 22-55): fixed policy
 * constants, the unrounded figures of one year, and the loop that builds the
 * display table and the list of unrounded net incomes (`cash_flows`).
 * Python floats are modelled as reals; `round` is a parameter.
 */
module Projection {
  import opened Inputs

  /** Tax rate, line 23. */
  const TaxRate: real := 0.20
  /** Discount rate, line 24. */
  const DiscountRate: real := 0.12

  /** The unrounded figures of one projection year. */
  datatype YearLine = YearLine(
    revenue: real,
    variableCosts: real,
    fixedCosts: real,
    payroll: real,
    ebitda: real,
    tax: real,
    netIncome: real,
    dcf: real)

  /** One row of the display table: every monetary column rounded to a whole unit. */
  datatype Row = Row(
    year: int,
    revenue: int,
    variableCosts: int,
    fixedCosts: int,
    payroll: int,
    ebitda: int,
    tax: int,
    netIncome: int,
    dcf: int,
    cumulative: int)

  /** `x ** n` for a whole exponent. */
  function Pow(x: real, n: nat): (r: real)
    ensures x > 0.0 ==> r > 0.0
    ensures x >= 0.0 ==> r >= 0.0
    ensures x >= 1.0 ==> r >= 1.0
  {
    if n == 0 then 1.0 else x * Pow(x, n - 1)
  }

  /** The discount factor `(1 + discount_rate) ** year`; never zero. */
  function DiscountFactor(year: nat): (d: real)
    ensures d >= 1.0
  {
    Pow(1.0 + DiscountRate, year)
  }

  /** `salary_costs`, line 25: computed once per run, before the loop. */
  function SalaryCosts(p: Params): real {
    p.avgSalary * (p.employees as real) * 12.0
  }

  /** Revenue of year `year` (line 32): compound growth from the first year's revenue. */
  function Revenue(p: Params, year: nat): real
    requires year >= 1
  {
    p.revenueYear1 * Pow(1.0 + p.growthRate, year - 1)
  }

  /** The unrounded figures of year `year` (lines 32-39). */
  function Line(p: Params, year: nat): YearLine
    requires year >= 1
  {
    var revenue := Revenue(p, year);
    var variableCosts := revenue * p.variableCostsPct;
    var fixedCosts := p.fixedCostsMonthly * 12.0;
    var totalOperatingExpenses := variableCosts + fixedCosts + SalaryCosts(p);
    var ebitda := revenue - totalOperatingExpenses;
    var tax := if ebitda > 0.0 then TaxRate * ebitda else 0.0;
    var netIncome := ebitda - tax;
    YearLine(revenue, variableCosts, fixedCosts, SalaryCosts(p), ebitda, tax, netIncome,
             netIncome / DiscountFactor(year))
  }

  /**
   * EBITDA is revenue less all three cost lines. Tax applies only to a
   * positive EBITDA, so net income never exceeds EBITDA and always has its
   * sign; the discounted cash flow times the discount factor gives back net income.
   */
  lemma LineFigures(p: Params, year: nat)
    requires year >= 1
    ensures var l := Line(p, year);
      && l.ebitda == l.revenue - (l.variableCosts + l.fixedCosts + l.payroll)
      && (l.ebitda <= 0.0 ==> l.tax == 0.0 && l.netIncome == l.ebitda)
      && (l.ebitda > 0.0 ==> l.tax == TaxRate * l.ebitda && l.netIncome == (1.0 - TaxRate) * l.ebitda)
      && l.netIncome <= l.ebitda
      && (l.netIncome > 0.0 <==> l.ebitda > 0.0) && (l.netIncome < 0.0 <==> l.ebitda < 0.0)
      && l.dcf * DiscountFactor(year) == l.netIncome
  {
  }

  /** The unrounded net incomes of years 1..n: what `cash_flows` holds after n iterations. */
  function NetIncomes(p: Params, n: nat): (cfs: seq<real>)
    ensures |cfs| == n
    ensures forall i :: 0 <= i < n ==> cfs[i] == Line(p, i + 1).netIncome
  {
    seq(n, i requires 0 <= i < n => Line(p, i + 1).netIncome)
  }

  /** Sum of a list of reals, accumulated from the front as the loop does. */
  function Sum(s: seq<real>): real {
    if s == [] then 0.0 else Sum(s[..|s| - 1]) + s[|s| - 1]
  }

  /** The display row of year `year`, given the running total of net income so far. */
  function DisplayRow(p: Params, year: nat, cumulative: real, round: real -> int): Row
    requires year >= 1
  {
    var l := Line(p, year);
    Row(year, round(l.revenue), round(l.variableCosts), round(l.fixedCosts), round(l.payroll),
        round(l.ebitda), round(l.tax), round(l.netIncome), round(l.dcf), round(cumulative))
  }

  /** Number of years `range(1, years + 1)` runs over. */
  function YearCount(years: int): nat {
    if years < 1 then 0 else years
  }

  /** The running total of net income after year n (`cumulative_cash_flow`), unrounded. */
  function Cumulative(p: Params, n: nat): real {
    Sum(NetIncomes(p, n))
  }

  /** The display table after n years: what `results` holds after n iterations. */
  function Rows(p: Params, n: nat, round: real -> int): (rows: seq<Row>)
    ensures |rows| == n
  {
    seq(n, i requires 0 <= i < n => DisplayRow(p, i + 1, Cumulative(p, i + 1), round))
  }

  /** One more year appends one row. */
  lemma RowsSnoc(p: Params, n: nat, round: real -> int)
    ensures Rows(p, n + 1, round) == Rows(p, n, round) + [DisplayRow(p, n + 1, Cumulative(p, n + 1), round)]
  {
  }

  /** One more year appends one net income. */
  lemma NetIncomesSnoc(p: Params, n: nat)
    ensures NetIncomes(p, n + 1) == NetIncomes(p, n) + [Line(p, n + 1).netIncome]
  {
  }

  /** One more year adds that year's net income to the running total. */
  lemma CumulativeSnoc(p: Params, n: nat)
    ensures Cumulative(p, n + 1) == Cumulative(p, n) + Line(p, n + 1).netIncome
  {
    NetIncomesSnoc(p, n);
    assert NetIncomes(p, n + 1)[..n] == NetIncomes(p, n);
  }

  /**
   * The loop of lines 31-55: after it, `results` is the display table of
   * years 1..horizon and `cash_flows` the unrounded net incomes of the same years.
   */
  method ProjectYears(p: Params, round: real -> int) returns (results: seq<Row>, cashFlows: seq<real>)
    ensures |results| == |cashFlows| == YearCount(p.horizon)
    ensures results == Rows(p, YearCount(p.horizon), round)
    ensures cashFlows == NetIncomes(p, YearCount(p.horizon))
  {
    results := [];
    cashFlows := [];
    var cumulativeCashFlow := 0.0;
    var year := 1;
    while year <= p.horizon
      invariant 1 <= year <= YearCount(p.horizon) + 1
      invariant cashFlows == NetIncomes(p, year - 1)
      invariant cumulativeCashFlow == Cumulative(p, year - 1)
      invariant results == Rows(p, year - 1, round)
    {
      var l := Line(p, year);
      cumulativeCashFlow := cumulativeCashFlow + l.netIncome;
      CumulativeSnoc(p, year - 1);
      RowsSnoc(p, year - 1, round);
      var row := DisplayRow(p, year, cumulativeCashFlow, round);
      NetIncomesSnoc(p, year - 1);
      results := results + [row];
      cashFlows := cashFlows + [l.netIncome];
      year := year + 1;
    }
  }

  /** `x ** n == 1` when `x == 1`. */
  lemma {:induction false} PowOne(n: nat)
    ensures Pow(1.0, n) == 1.0
  {
    if n > 0 {
      PowOne(n - 1);
    }
  }

  /**
   * Compound growth: year 1 earns `revenue_year1`, and every later year earns
   * the previous year's revenue times `1 + growth_rate`.
   */
  lemma RevenueGrowth(p: Params, year: nat)
    requires year >= 1
    ensures Revenue(p, 1) == p.revenueYear1
    ensures Revenue(p, year + 1) == Revenue(p, year) * (1.0 + p.growthRate)
  {
    var x, r1 := 1.0 + p.growthRate, p.revenueYear1;
    var before := Pow(x, year - 1);
    assert Pow(x, year) == x * before;
    assert r1 * (x * before) == (r1 * before) * x;
  }

  /** With zero growth every year's revenue equals the first year's. */
  lemma FlatRevenue(p: Params, year: nat)
    requires year >= 1 && p.growthRate == 0.0
    ensures Line(p, year).revenue == p.revenueYear1
  {
    PowOne(year - 1);
  }

  /**
   * Fixed costs (twelve monthly payments) and payroll (salary times
   * head-count times twelve) do not depend on the year.
   */
  lemma CostsConstant(p: Params, year1: nat, year2: nat)
    requires year1 >= 1 && year2 >= 1
    ensures Line(p, year1).fixedCosts == Line(p, year2).fixedCosts == p.fixedCostsMonthly * 12.0
    ensures Line(p, year1).payroll == Line(p, year2).payroll == p.avgSalary * (p.employees as real) * 12.0
  {
  }

  /**
   * Non-negative inputs and growth no worse than -100% give non-negative
   * revenue and cost columns in every year.
   */
  lemma CostsNonNegative(p: Params, year: nat)
    requires year >= 1
    requires p.revenueYear1 >= 0.0 && p.growthRate >= -1.0 && p.variableCostsPct >= 0.0
    requires p.fixedCostsMonthly >= 0.0 && p.employees >= 0 && p.avgSalary >= 0.0
    ensures Line(p, year).revenue >= 0.0 && Line(p, year).variableCosts >= 0.0
    ensures Line(p, year).fixedCosts >= 0.0 && Line(p, year).payroll >= 0.0
  {
    var g := Pow(1.0 + p.growthRate, year - 1);
    assert g >= 0.0;
    var revenue := p.revenueYear1 * g;
    assert revenue >= 0.0;
    assert revenue * p.variableCostsPct >= 0.0;
    assert p.avgSalary * (p.employees as real) >= 0.0;
  }

  /** The first n net incomes do not depend on how many more years follow. */
  lemma NetIncomesPrefix(p: Params, n: nat, k: nat)
    requires k <= n
    ensures NetIncomes(p, n)[..k] == NetIncomes(p, k)
  {
  }

  /**
   * The table after n years has one row per year 1..n in ascending order;
   * row i shows the rounded figures of year i + 1 and, as its cumulative
   * column, the rounded sum of the first i + 1 entries of `cash_flows`.
   */
  lemma RowsShape(p: Params, n: nat, round: real -> int, i: nat)
    requires i < n
    ensures Rows(p, n, round)[i].year == i + 1
    ensures Rows(p, n, round)[i].cumulative == round(Sum(NetIncomes(p, n)[..i + 1]))
  {
    NetIncomesPrefix(p, n, i + 1);
  }

  /**
   * A worked example: 1 000 000 revenue, 10%
   * growth, 50 000 monthly fixed costs, 30% variable costs, two employees
   * at 80 000 a month. Year 1 makes a loss of 1 820 000, so no tax is due.
   */
  lemma WorkedExampleYearOne()
    ensures var p := Params(3, 1000000.0, 0.10, 500000.0, 50000.0, 0.30, 2, 80000.0);
            var l := Line(p, 1);
            l.revenue == 1000000.0 && l.variableCosts == 300000.0 && l.fixedCosts == 600000.0
            && l.payroll == 1920000.0 && l.ebitda == -1820000.0 && l.tax == 0.0
            && l.netIncome == -1820000.0
  {
  }
}
