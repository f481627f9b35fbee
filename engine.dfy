/**
 * The computational part of `generate_financial_model` (calculator.py
 * lines 11-66 and 132-139): normalize the inputs, run the projection loop,
 * then derive NPV, IRR, payback and the valuation multiples. The workbook
 * it then writes is not modelled.
 */
module Engine {
  import opened Results
  import opened Inputs
  import opened Projection
  import opened Metrics
  import opened Normalizer

  /** Why a run produces no report. */
  datatype RunError =
    | ParseError(field: Field)
      // a field's text is rejected by `int()` or `float()`
    | NoProjectionYears
      // a horizon below 1 leaves the table without columns, so line 132 fails

  /** The summary metrics of one run. `irr` is a percentage, or None for "N/A". */
  datatype Summary = Summary(
    npv: real,
    irr: Option<real>,
    payback: PaybackPeriod,
    valuation: real,
    multiples: Multiples)

  /** The display table and the summary metrics that the workbook shows. */
  datatype Report = Report(rows: seq<Row>, summary: Summary)

  /** The flows handed to the IRR solver: the investment as an outflow, then `cash_flows` (line 62). */
  function IrrFlows(investment: real, cashFlows: seq<real>): seq<real> {
    [-investment] + cashFlows
  }

  /** The solver's rate as a percentage; a solver failure is reported as "N/A" (None). */
  function IrrPercent(rate: Option<real>): Option<real> {
    match rate
    case Some(x) => Some(x * 100.0)
    case None => None
  }

  /**
   * One run. Parsing failures abort before any projection work; a horizon
   * below 1 fails at the column totals; otherwise the report holds one row
   * per year and metrics computed from the unrounded net incomes. The IRR
   * solver `irr` receives the cash flows preceded by the negated investment.
   */
  method GenerateFinancialModel(raw: RawInputs, ps: Parsers, round: real -> int,
                                irr: seq<real> -> Option<real>)
    returns (r: Result<Report, RunError>)
    ensures Normalize(raw, ps).Err? ==> r == Err(ParseError(Normalize(raw, ps).error))
    ensures Normalize(raw, ps).Ok? && Normalize(raw, ps).value.horizon < 1 ==> r == Err(NoProjectionYears)
    ensures r.Ok? <==> Normalize(raw, ps).Ok? && Normalize(raw, ps).value.horizon >= 1
    ensures r.Ok? ==>
      var p := Normalize(raw, ps).value;
      var cashFlows := NetIncomes(p, p.horizon);
      var s := r.value.summary;
      && |r.value.rows| == p.horizon
      && r.value.rows == Rows(p, p.horizon, round)
      && s.npv == Npv(cashFlows)
      && s.irr == IrrPercent(irr(IrrFlows(p.investment, cashFlows)))
      && s.payback == Payback(cashFlows, p.investment)
      && s.valuation == p.investment + s.npv
      && s.multiples == ValuationMultiples(s.valuation, RevenueTotal(r.value.rows), EbitdaTotal(r.value.rows))
  {
    var normalized := Normalize(raw, ps);
    if normalized.Err? {
      return Err(ParseError(normalized.error));
    }
    var p := normalized.value;
    var results, cashFlows := ProjectYears(p, round);

    var npv := Npv(cashFlows);
    var irrValue := IrrPercent(irr(IrrFlows(p.investment, cashFlows)));
    var paybackYear := Payback(cashFlows, p.investment);

    if |results| == 0 {
      return Err(NoProjectionYears);
    }
    assert YearCount(p.horizon) == p.horizon;
    assert cashFlows == NetIncomes(p, p.horizon);
    var valuation := p.investment + npv;
    var multiples := ValuationMultiples(valuation, RevenueTotal(results), EbitdaTotal(results));
    r := Ok(Report(results, Summary(npv, irrValue, paybackYear, valuation, multiples)));
  }
}
