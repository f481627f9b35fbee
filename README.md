# Financial projection engine — a Dafny model

This project models the computational core of `generate_financial_model` in
`calculator.py`. The function takes the raw text a user typed into a chat form
and builds a multi-year projection for a business. It has three stages.

1. **Input cleanup** (`Cleanup`, `Normalizer`). Money fields have every space and
   every comma deleted. Growth has its commas rewritten to periods. Growth and
   variable costs are percentages divided by 100. Because variable costs lose their
   commas, `"12,5"` is read as 125 %, not 12.5 %; the model keeps this behaviour.
   The first field that `int()` or `float()` rejects aborts the run.
2. **Per-year projection** (`Projection`). A loop over years 1..horizon computes
   compound-growth revenue, variable, fixed and payroll costs, EBITDA, a 20 % tax
   on positive EBITDA only, net income, the cash flow discounted at 12 %, and a
   running total of net income. It appends one rounded display row and one
   unrounded net income per year. The loop is the method `ProjectYears`, proved
   against the functions `Rows` and `NetIncomes`.
3. **Summary metrics** (`Metrics`, `Engine`). NPV is the discounted sum of the net
   incomes; the investment is not subtracted. Payback is the first 1-based year
   whose running total reaches the investment, or a "beyond the horizon"
   sentinel. Valuation is investment plus NPV. EV/Revenue and EV/EBITDA divide the
   valuation by the totals of the rounded revenue and EBITDA columns, and are
   "N/A" when a total is zero. The table stores those columns as 64-bit integers
   when the values fit, and the column total then wraps modulo 2^64 without an
   error; the model computes the totals the same way.

Python floats are modelled as exact `real` numbers, so the proofs are about the
algebra of the computation, not IEEE rounding. Python's `round`, `int()`,
`float()` and the IRR solver `np.irr` are parameters of the model: `round` is any
function from reals to integers, the parsers may fail (`None`), and the solver
returns a rate or fails.

Modules: `Results` (Option, Result), `Inputs` (the normalized parameters),
`Cleanup`, `Normalizer`, `Projection`, `Metrics`, `Engine`.

Two statements one might expect about payback are false for the code, and the
model follows the code. A zero investment is not always recovered in year 1:
a first-year loss keeps the running total below zero (`ZeroInvestmentWithLoss`).
A total below the investment does not rule out a payback year: an early year can
reach it before a later loss (`ShortTotalCanStillPayBack`). Both statements do
hold when no year makes a loss (`PaybackInFirstYear`, `PaybackBeyondWhenShort`).

The column totals behind the multiples are exact only while they fit in a
signed 64-bit integer. Two years of revenue 2^62 each total -2^63, so a positive
valuation gets a negative EV/Revenue (`WrappedRevenueFlipsSign`).

## Model

| member | source | states |
|---|---|---|
| `Cleanup.Delete` | calculator.py:14 | `replace(c, "")`: the result holds no `c`, is no longer than the input, and is the input itself when `c` is absent |
| `Cleanup.DeleteKeepsAbsent` | calculator.py:14 | deleting one character never introduces another |
| `Cleanup.DeleteCounts` | calculator.py:14 | deleting `c` keeps the number of occurrences of every other character |
| `Cleanup.DeleteConcat` | calculator.py:14 | deleting distributes over concatenation, so kept characters stay in their original order |
| `Cleanup.Substitute` | calculator.py:15 | `replace(from, to)`: same length, each position rewritten from `from` to `to` and otherwise unchanged |
| `Cleanup.CleanMoney` | calculator.py:14-20 | the money cleanup leaves no space and no comma |
| `Cleanup.CleanMoneyCounts` | calculator.py:14-20 | every character other than a space or comma occurs as often after the money cleanup as before |
| `Cleanup.CleanMoneyConcat` | calculator.py:14-20 | the money cleanup commutes with concatenation, so it keeps non-separators in order |
| `Cleanup.CleanMoneyChar` | calculator.py:14-20 | on one character, the money cleanup drops a space or comma and keeps anything else |
| `Cleanup.CleanMoneyIdempotent` | calculator.py:14-20 | cleaning a money field twice gives the same text as cleaning it once |
| `Cleanup.CleanGrowth` | calculator.py:15 | the growth cleanup maps each comma to a period, keeps every other character (spaces included) and keeps the length |
| `Cleanup.CommaDeletedExample` | calculator.py:18 | deleting commas from "12,5" gives "125" |
| `Cleanup.DecimalCommaQuirk` | calculator.py:18 | the variable-costs text "12,5" is cleaned to "125" |
| `Cleanup.GrowthDecimalComma` | calculator.py:15 | the growth text "12,5" is cleaned to "12.5" |
| `Normalizer.FirstFailure` | calculator.py:13-20 | the index of the first field, in parse order, whose parser rejects its text; none exactly when every field parses |
| `Normalizer.AllFieldsParse` | calculator.py:13-20 | if every field in the parse order parses, each of the eight fields has a value |
| `Normalizer.Normalize` | calculator.py:13-20 | parsing succeeds exactly when every field parses; a failure names a field that does not parse and that every earlier field in parse order does |
| `Normalizer.NormalizeValues` | calculator.py:13-20 | on success each parameter is the parser's value of the cleaned text, with growth and variable costs divided by 100 |
| `Normalizer.DecimalCommaDropped` | calculator.py:18 | a comma inside the variable-costs text reaches the parser as if it were not there |
| `Projection.Pow` | calculator.py:32 | `x ** n` is positive for positive `x`, non-negative for non-negative `x`, and at least 1 for `x >= 1` |
| `Projection.DiscountFactor` | calculator.py:39 | the discount factor `1.12 ** year` is at least 1 |
| `Projection.PowOne` | calculator.py:32 | `1 ** n` is 1 |
| `Projection.RevenueGrowth` | calculator.py:32 | year-1 revenue is `revenue_year1`, and each next year's revenue is the previous one times `1 + growth_rate` |
| `Projection.FlatRevenue` | calculator.py:32 | with zero growth, every year's revenue is `revenue_year1` |
| `Projection.CostsConstant` | calculator.py:25-34 | fixed costs (monthly times 12) and payroll (salary times head-count times 12) are the same in every year |
| `Projection.CostsNonNegative` | calculator.py:25-34 | non-negative inputs and growth of at least -100 % give non-negative revenue and cost columns |
| `Projection.LineFigures` | calculator.py:33-39 | EBITDA is revenue less the three costs; no tax and net equal to EBITDA when EBITDA is not positive, else tax 20 % and net 80 % of EBITDA; net never exceeds EBITDA and has its sign; DCF times the discount factor is net income |
| `Projection.WorkedExampleYearOne` | calculator.py:32-38 | year 1 of a sample project: revenue 1 000 000, costs 300 000, 600 000 and 1 920 000, EBITDA and net income -1 820 000, no tax |
| `Projection.NetIncomes` | calculator.py:55 | `cash_flows` after n years holds n entries, entry i being year i+1's unrounded net income |
| `Projection.NetIncomesSnoc` | calculator.py:55 | one more year appends that year's net income |
| `Projection.NetIncomesPrefix` | calculator.py:55 | the first k net incomes do not depend on how many years follow |
| `Projection.CumulativeSnoc` | calculator.py:40 | one more year adds that year's net income to the running total |
| `Projection.Rows` | calculator.py:42-53 | the display table after n years has n rows |
| `Projection.RowsSnoc` | calculator.py:42-53 | one more year appends that year's display row |
| `Projection.RowsShape` | calculator.py:43-52 | row i is year i+1 (years ascend from 1), and its cumulative column is the rounded sum of the first i+1 cash flows |
| `Projection.ProjectYears` | calculator.py:31-55 | the loop yields one row per year 1..horizon (none for a horizon below 1) and the same number of cash flows, equal to the display table and the unrounded net incomes |
| `Metrics.Discounted` | calculator.py:60 | one discounted cash flow per year |
| `Metrics.NpvSnoc` | calculator.py:60 | one more year adds its cash flow divided by `1.12 ** year` to the NPV |
| `Metrics.NpvIsSumOfDcf` | calculator.py:39-60 | the NPV of the projection equals the sum of its unrounded DCF column, with no investment term |
| `Metrics.NpvBounds` | calculator.py:60 | with no loss year, NPV lies between 0 and the undiscounted total |
| `Metrics.Cumsum` | calculator.py:66 | `np.cumsum`: entry k is the sum of the first k+1 values |
| `Metrics.FirstReaching` | calculator.py:66 | `next(...)`: the 1-based position of the first running sum reaching the investment, the sentinel exactly when none does |
| `Metrics.Payback` | calculator.py:66 | the payback year is the smallest k whose sum of the first k cash flows reaches the investment; the sentinel exactly when no k within the horizon does |
| `Metrics.PaybackInFirstYear` | calculator.py:66 | a first year that alone covers the investment is the payback year |
| `Metrics.PaybackWhenTotalCovers` | calculator.py:66 | a horizon whose total covers the investment has a payback year |
| `Metrics.PrefixAtMostTotal` | calculator.py:66 | with no loss year, no running sum exceeds the total |
| `Metrics.PaybackBeyondWhenShort` | calculator.py:66 | with no loss year, a total below the investment gives the sentinel |
| `Metrics.ZeroInvestmentWithLoss` | calculator.py:66 | a zero investment and a first-year loss give the sentinel, not year 1 |
| `Metrics.ShortTotalCanStillPayBack` | calculator.py:66 | a total below the investment can still have a payback year |
| `Metrics.PaybackIsFirstCoveredYear` | calculator.py:40-66 | in the projection, the payback year is the first year whose unrounded cumulative net income reaches the investment |
| `Metrics.MultipleOf` | calculator.py:138-139 | a multiple is "N/A" exactly when its denominator is zero, and otherwise times the denominator gives the valuation |
| `Metrics.WrapInt64` | calculator.py:132-133 | a wrapped int64 total lies in the int64 range and equals the exact value when that fits |
| `Metrics.WrapUint64` | calculator.py:132-133 | a wrapped uint64 total lies in the uint64 range and equals the exact value when that fits |
| `Metrics.WrapInt64Congruent` | calculator.py:132-133 | the int64 wrap changes a number by a multiple of 2^64 |
| `Metrics.WrapUint64Congruent` | calculator.py:132-133 | the uint64 wrap changes a number by a multiple of 2^64 |
| `Metrics.IntSumNonNegative` | calculator.py:132-133 | a column of non-negative values has a non-negative exact sum |
| `Metrics.ColumnSumExact` | calculator.py:132-133 | `Series.sum()` of the column equals the exact sum whenever the exact sum fits in int64 |
| `Metrics.ColumnSumCongruent` | calculator.py:132-133 | `Series.sum()` of the column always agrees with the exact sum modulo 2^64 |
| `Metrics.ColumnSumWraps` | calculator.py:132-133 | two int64 values 2^62 total -2^63, not 2^63 |
| `Metrics.RevenueColumn` | calculator.py:132 | the revenue column has one entry per row, the row's rounded revenue |
| `Metrics.EbitdaColumn` | calculator.py:133 | the EBITDA column has one entry per row, the row's rounded EBITDA |
| `Metrics.ValuationMultiples` | calculator.py:134-139 | EV/Revenue and EV/EBITDA are "N/A" exactly when the revenue or EBITDA total is zero, else the valuation divided by that total |
| `Metrics.WrappedRevenueFlipsSign` | calculator.py:132-138 | two years of revenue 2^62 give the revenue total -2^63 and, for valuation 1, a negative EV/Revenue |
| `Metrics.IntSumZero` | calculator.py:132 | a column of zeros sums to zero |
| `Metrics.ZeroRevenueNotComputable` | calculator.py:132-138 | zero first-year revenue gives a zero revenue total whatever the growth, when rounding keeps 0 at 0, and so "N/A" for EV/Revenue |
| `Engine.GenerateFinancialModel` | calculator.py:11-66 | a parse failure is reported with its field; a horizon below 1 is an error; otherwise the report holds the projection table, the NPV, the IRR percentage of the investment-first flows, the payback year, investment plus NPV as valuation, and the multiples over the wrapped column totals of that table |

## Left out

- Writing the workbook (calculator.py:68-161): directory creation, the timestamped file name, sheets, styles and saving are file I/O and formatting. `GenerateFinancialModel` returns the report instead of a file path.
- The IRR solver (calculator.py:61-65): `np.irr` is a foreign root finder and is a parameter that returns a rate or fails; the bare `except` becomes `None` ("N/A").
- GenerateFinancialModel: does not model rounding the IRR percentage to two decimals (line 63) or the NPV to two decimals in the returned metrics (line 165).
- ValuationMultiples: does not model rounding the multiples to two decimals (lines 138-139); the exact ratio is stated.
- Python's `int()`, `float()` and `round` are parameters; their text grammar and half-to-even rounding are not modelled.
- Python floats are exact reals: overflow, precision loss and IEEE rounding are not modelled.
- The storage type of a display column (`ColumnSum`) follows pandas' inference for Python ints (int64 when every value fits, else uint64 when every value is non-negative and fits, else Python objects with exact sums); a pandas version that infers differently is not covered.
- The pandas table (line 57) is a sequence of rows, and `np.cumsum` a running-sum function; only their meaning is kept.
- A horizon below 1 gives an empty table, and the column lookup on line 132 then raises. The model reports this as the error `NoProjectionYears` instead of an exception.
- The project type and region fields are carried but not used: the source only copies them into the workbook (lines 110-111).
- `extract_metrics_from_results` (calculator.py:172-178) only formats text for the user.
- bot.py is not part of this model. It holds the chat handlers, the polling loop and the call to an external analysis service, and does no computation of its own.
