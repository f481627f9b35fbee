/**
 * Turning the raw form fields into numbers (calculator.py lines 13-20).
 * Python's `float()` and `int()` are parameters: each either yields a value
 * or fails, and the first failing field, in the order the source parses
 * them, aborts the run.
 */
module Normalizer {
  import opened Results
  import opened Cleanup
  import opened Inputs

  /** The raw text of every form field, as collected one message at a time. */
  datatype RawInputs = RawInputs(
    projectType: string,
    region: string,
    investment: string,
    horizon: string,
    revenueYear1: string,
    growth: string,
    fixedCosts: string,
    variableCosts: string,
    employees: string,
    avgSalary: string)

  /** The numeric fields, in the order lines 13-20 parse them. */
  datatype Field = Horizon | RevenueYear1 | Growth | Investment | FixedCosts | VariableCosts | Employees | AvgSalary

  /** The order in which lines 13-20 parse the fields. */
  const ParseOrder: seq<Field> := [Horizon, RevenueYear1, Growth, Investment, FixedCosts, VariableCosts, Employees, AvgSalary]

  /** The text parsers standing in for Python's `float()` and `int()`. */
  datatype Parsers = Parsers(parseFloat: string -> Option<real>, parseInt: string -> Option<int>)

  /** `horizon` and `employees` are read by `int()` without cleanup. */
  predicate IsWholeNumber(f: Field) {
    f == Horizon || f == Employees
  }

  /** The text handed to the parser: growth has its comma rewritten, money fields are cleaned. */
  function ParsedText(raw: RawInputs, f: Field): string {
    match f
    case Horizon => raw.horizon
    case Employees => raw.employees
    case Growth => CleanGrowth(raw.growth)
    case RevenueYear1 => CleanMoney(raw.revenueYear1)
    case Investment => CleanMoney(raw.investment)
    case FixedCosts => CleanMoney(raw.fixedCosts)
    case VariableCosts => CleanMoney(raw.variableCosts)
    case AvgSalary => CleanMoney(raw.avgSalary)
  }

  /** Whether the parser for field f accepts its text. */
  predicate Parses(raw: RawInputs, ps: Parsers, f: Field) {
    if IsWholeNumber(f) then IntField(raw, ps, f).Some? else FloatField(raw, ps, f).Some?
  }

  /** The value `float()` reads from field f's text. */
  function FloatField(raw: RawInputs, ps: Parsers, f: Field): Option<real> {
    ps.parseFloat(ParsedText(raw, f))
  }

  /** The value `int()` reads from field f's text. */
  function IntField(raw: RawInputs, ps: Parsers, f: Field): Option<int> {
    ps.parseInt(ParsedText(raw, f))
  }

  /**
   * The first of `fields` whose parser rejects its text, if any: the field
   * whose exception aborts lines 13-20 when they run in this order.
   */
  function FirstFailure(raw: RawInputs, ps: Parsers, fields: seq<Field>): (r: Option<nat>)
    ensures r.Some? ==> r.value < |fields| && !Parses(raw, ps, fields[r.value])
    ensures r.Some? ==> forall j :: 0 <= j < r.value ==> Parses(raw, ps, fields[j])
    ensures r.None? <==> forall j :: 0 <= j < |fields| ==> Parses(raw, ps, fields[j])
  {
    if fields == [] then None
    else if !Parses(raw, ps, fields[0]) then Some(0)
    else
      match FirstFailure(raw, ps, fields[1..])
      case None => None
      case Some(k) => Some(k + 1)
  }

  /** Every field appears in the parse order, so a clean scan means every field parses. */
  lemma AllFieldsParse(raw: RawInputs, ps: Parsers)
    requires forall j :: 0 <= j < |ParseOrder| ==> Parses(raw, ps, ParseOrder[j])
    ensures forall f :: Parses(raw, ps, f)
    ensures IntField(raw, ps, Horizon).Some? && IntField(raw, ps, Employees).Some?
    ensures FloatField(raw, ps, RevenueYear1).Some? && FloatField(raw, ps, Growth).Some?
    ensures FloatField(raw, ps, Investment).Some? && FloatField(raw, ps, FixedCosts).Some?
    ensures FloatField(raw, ps, VariableCosts).Some? && FloatField(raw, ps, AvgSalary).Some?
  {
    forall f: Field
      ensures Parses(raw, ps, f)
    {
      var k := match f
        case Horizon => 0
        case RevenueYear1 => 1
        case Growth => 2
        case Investment => 3
        case FixedCosts => 4
        case VariableCosts => 5
        case Employees => 6
        case AvgSalary => 7;
      assert ParseOrder[k] == f;
    }
    assert Parses(raw, ps, Horizon) && Parses(raw, ps, Employees);
    assert Parses(raw, ps, RevenueYear1) && Parses(raw, ps, Growth) && Parses(raw, ps, Investment);
    assert Parses(raw, ps, FixedCosts) && Parses(raw, ps, VariableCosts) && Parses(raw, ps, AvgSalary);
  }

  /**
   * Lines 13-20: parse the fields in order; the first one that does not
   * parse aborts the run. Growth and variable costs are percentages divided
   * by 100.
   */
  function Normalize(raw: RawInputs, ps: Parsers): (r: Result<Params, Field>)
    ensures r.Ok? <==> forall f :: Parses(raw, ps, f)
    ensures r.Err? ==> !Parses(raw, ps, r.error)
    ensures r.Err? ==>
      exists k :: 0 <= k < |ParseOrder| && ParseOrder[k] == r.error &&
        (forall j :: 0 <= j < k ==> Parses(raw, ps, ParseOrder[j]))
  {
    match FirstFailure(raw, ps, ParseOrder)
    case Some(k) => Err(ParseOrder[k])
    case None =>
      AllFieldsParse(raw, ps);
      Ok(Params(
        IntField(raw, ps, Horizon).value,
        FloatField(raw, ps, RevenueYear1).value,
        FloatField(raw, ps, Growth).value / 100.0,
        FloatField(raw, ps, Investment).value,
        FloatField(raw, ps, FixedCosts).value,
        FloatField(raw, ps, VariableCosts).value / 100.0,
        IntField(raw, ps, Employees).value,
        FloatField(raw, ps, AvgSalary).value))
  }

  /**
   * On success every value is what the parser read from the cleaned text,
   * except that growth and variable costs, read as percentages, are divided
   * by 100 into fractions.
   */
  lemma NormalizeValues(raw: RawInputs, ps: Parsers)
    requires Normalize(raw, ps).Ok?
    ensures var p := Normalize(raw, ps).value;
      && IntField(raw, ps, Horizon) == Some(p.horizon)
      && IntField(raw, ps, Employees) == Some(p.employees)
      && FloatField(raw, ps, RevenueYear1) == Some(p.revenueYear1)
      && FloatField(raw, ps, Investment) == Some(p.investment)
      && FloatField(raw, ps, FixedCosts) == Some(p.fixedCostsMonthly)
      && FloatField(raw, ps, AvgSalary) == Some(p.avgSalary)
      && FloatField(raw, ps, Growth).Some? && p.growthRate == FloatField(raw, ps, Growth).value / 100.0
      && FloatField(raw, ps, VariableCosts).Some?
      && p.variableCostsPct == FloatField(raw, ps, VariableCosts).value / 100.0
  {
    assert Parses(raw, ps, Horizon) && Parses(raw, ps, Employees);
    assert Parses(raw, ps, RevenueYear1) && Parses(raw, ps, Growth) && Parses(raw, ps, Investment);
    assert Parses(raw, ps, FixedCosts) && Parses(raw, ps, VariableCosts) && Parses(raw, ps, AvgSalary);
  }

  /**
   * A comma in variable costs never reaches the parser: "12,5" is read as
   * if it were "125", so a decimal comma scales the percentage by ten.
   */
  lemma DecimalCommaDropped(raw: RawInputs, a: string, b: string)
    requires raw.variableCosts == a + [','] + b
    ensures ParsedText(raw, VariableCosts) == ParsedText(raw.(variableCosts := a + b), VariableCosts)
  {
    CleanMoneyConcat(a + [','], b);
    CleanMoneyConcat(a, [',']);
    CleanMoneyChar(',');
    CleanMoneyConcat(a, b);
  }
}
