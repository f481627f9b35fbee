/**
 * The numeric inputs of one run, as lines 13-20 of calculator.py leave
 * them: produced by the normalizer, consumed by the projection.
 */
module Inputs {

  /** The normalized inputs of one run. Percent fields are already fractions. */
  datatype Params = Params(
    horizon: int,
    revenueYear1: real,
    growthRate: real,
    investment: real,
    fixedCostsMonthly: real,
    variableCostsPct: real,
    employees: int,
    avgSalary: real)
}
