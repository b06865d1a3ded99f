# Calcify calculators in Dafny

A model of the calculator logic of the calcify backend, an Express service that answers
finance and unit-conversion requests from query-string parameters. The repository holds two
divergent controllers:

- `controller/calccontroller.js` (module `FullController`): four calculators that check their
  inputs and return either figures or an error text — EMI (monthly loan instalment, with a
  zero-rate case), GST (tax-inclusive and tax-exclusive split), provident fund (employee and
  employer shares) and salary to hourly rate (50 working weeks) — and the request handlers that
  read the query, choose the loan term (`months`, else `years` × 12) and default the dearness
  allowance to 0;
- `controllers/calcController.js` (module `ProController`), the controller the routes use: a
  success/error envelope, simpler EMI, GST, PF and salary formulas (52 working weeks) that only
  check that parameters are present, and a unit converter with length and weight factor tables
  and a temperature converter that goes through Celsius.

Shared modules: `Wrappers` (Option and Result), `Rounding` (`toFixed` on exact numbers: the
nearest multiple of 10^-d, halves away from zero), `Amortization` (powers, the balance of a loan
after each monthly payment, and the amortisation formula proved to be the only level payment that
clears the loan), `Query` (a query parameter as its text plus the number `parseFloat` reads from
it, JavaScript truthiness, `parseInt` as truncation) and `Responses` (the envelope). Module
`Variants` relates the two controllers where they overlap.

Numbers are exact reals. A query parameter is `Option<Param>`: `None` when absent; its `number`
is the reading `parseFloat` gives, supplied by the caller rather than parsed. Where the source
goes on with NaN or an infinity, or throws, the model excludes those inputs by a precondition
instead of promising a result: a missing number and a fractional term at a positive rate in
`controller/calccontroller.js`; in `controllers/calcController.js` an EMI whose formula divides
by zero (a zero rate, zero months, or a rate of −1200% or below whose power is one), zero weekly
hours, and an unknown category, unit or scale. "## Left out" lists each with what the source
answers there.

The comment at `routes/calcRoutes.js:13` announces a second salary mode (`?basic=&hra=&da=&bonus=`);
the salary handler of `controllers/calcController.js` only reads `annual` and `hours`, and the
model follows the code. Neither controller checks that a present parameter is numeric or that a
unit, scale or category is known.

## Model

| member | source | states |
|---|---|---|
| Rounding.ToFixed | controller/calccontroller.js:30-32 | the rounded figure has at most d decimals, lies within half a unit of the last place of the input, and keeps the input's sign |
| Rounding.RoundHalfUp | controllers/calcController.js:30 | rounding a non-negative number to a grid gives a non-negative grid point within half a step |
| Rounding.RoundTo | controllers/calcController.js:30 | rounding to a grid gives a grid point within half a step, with the sign of the input |
| Rounding.RoundToKeepsGrid | controllers/calcController.js:30 | a grid point rounds to itself |
| Rounding.ToFixedIdempotent | controller/calccontroller.js:16 | rounding an already rounded figure to the same number of decimals changes nothing |
| Rounding.ToFixedKeepsDecimals | controller/calccontroller.js:16 | a figure with at most d decimals is returned unchanged |
| Amortization.MonthlyRate | controller/calccontroller.js:11 | the monthly rate is the yearly percentage divided by 1200 |
| Amortization.IntPow | controllers/calcController.js:23-24 | `Math.pow` for whole exponents: repeated multiplication for n ≥ 0, the reciprocal of b^-n for n < 0; positive for a positive base and different from 1 for a positive base other than 1 and a nonzero exponent |
| Amortization.PowSign | controller/calccontroller.js:23 | a power of a nonzero base is nonzero, of a positive base positive |
| Amortization.PowAwayFromOne | controller/calccontroller.js:23-24 | a positive power of a base above (below) one is above (below) one |
| Amortization.PowOfOne | controller/calccontroller.js:13 | every power of one is one |
| Amortization.GeoAtLeastOne | controller/calccontroller.js:26 | the sum 1 + b + … + b^(n−1) is at least 1 for a positive base and n > 0 |
| Amortization.BalanceClosedForm | controller/calccontroller.js:22-24 | after m payments e the balance is P·(1+r)^m − e·(1 + (1+r) + … + (1+r)^(m−1)) |
| Amortization.GeoTelescopes | controller/calccontroller.js:22-24 | (b − 1)·(1 + b + … + b^(n−1)) = b^n − 1 |
| Amortization.GeoAtOne | controller/calccontroller.js:14 | at b = 1 the geometric sum of n terms is n |
| Amortization.Instalment | controller/calccontroller.js:22-24 | the instalment times ((1+r)^n − 1) is P·r·(1+r)^n |
| Amortization.AnnuityQuotient | controllers/calcController.js:22-24 | for a growth x other than one, the quotient times (x − 1) is P·r·x |
| Amortization.InstalmentTimesGeo | controller/calccontroller.js:22-24 | the formula's instalment times the geometric sum is the grown principal |
| Amortization.GrowthIsNotOne | controller/calccontroller.js:22-24 | for a rate above −100% other than zero and n > 0 the formula's denominator is not zero |
| Amortization.InstalmentClearsLoan | controller/calccontroller.js:22-24 | paying P·r·(1+r)^n / ((1+r)^n − 1) every month leaves nothing owed after n months |
| Amortization.EvenSplitClearsLoan | controller/calccontroller.js:13-14 | at a zero rate, P / n every month leaves nothing owed after n months |
| Amortization.LevelPayment | controller/calccontroller.js:13-24 | the zero-rate split or the formula, whichever applies, clears the loan |
| Amortization.ClearingPaymentIsUnique | controller/calccontroller.js:22-24 | two level payments that both clear the same loan are equal, so the formula is the one clearing payment |
| Amortization.GeoBelowTerm | controller/calccontroller.js:26-27 | for b > 1 the geometric sum of n terms is below n·b^n |
| Amortization.ClearingPaymentsExceedPrincipal | controller/calccontroller.js:26-27 | at a positive rate, n clearing payments add up to more than the principal |
| Query.Truthy | controllers/calcController.js:13 | a parameter passes the `!p` / `if (p)` tests exactly when it is present with a non-empty text |
| Query.TruthyByText | controller/calccontroller.js:117-119 | the text decides truthiness: absent and empty are falsy, "0" and "false" are truthy |
| Query.ParseInt | controllers/calcController.js:19 | `parseInt` cuts off the fraction towards zero: the result is the whole number next to the reading on the side of zero |
| Query.ParseIntOfWhole | controllers/calcController.js:19 | a whole-number reading is kept as it is |
| Responses.Success | controllers/calcController.js:6 | `success(d)` has status "success", carries d and no message |
| Responses.Failure | controllers/calcController.js:7 | `error(m)` has status "error", carries m and no data |
| Responses.WellTaggedIsSuccessOrFailure | controllers/calcController.js:6-7 | every well-tagged envelope is one the two helpers build, told apart by its status |
| FullController.ExactEmi | controller/calccontroller.js:11-24 | the unrounded EMI clears the loan over the term; at a zero rate it is principal / months |
| FullController.ExactEmiIsFormula | controller/calccontroller.js:22-24 | at a positive rate the growth (1+r)^n exceeds one and the EMI is P·r·(1+r)^n / ((1+r)^n − 1) |
| FullController.TotalRepaid | controller/calccontroller.js:26 | the unrounded total payment is the principal at a zero rate and exceeds the principal at a positive rate |
| FullController.CalculateEMI | controller/calccontroller.js:6-34 | an error with the validation text exactly when principal ≤ 0, rate < 0 or tenure ≤ 0; at a zero rate principal / tenure rounded, no interest and the principal as total payment, for any positive tenure; for a whole tenure the EMI is the rounded clearing payment; at a positive rate total payment = EMI·n and total interest = total payment − principal, each rounded, the interest never negative |
| FullController.ExactGst | controller/calccontroller.js:43-54 | tax = net·rate/100 and gross = net + tax; inclusive pricing keeps the amount as gross, exclusive as net |
| FullController.InclusiveUndoesExclusive | controller/calccontroller.js:46-54 | splitting the gross of an exclusive split as an inclusive price gives back the same net, tax and gross |
| FullController.RoundGst | controller/calccontroller.js:57-59 | each GST figure becomes a whole number of cents within half a cent of the exact one |
| FullController.CalculateGST | controller/calccontroller.js:38-61 | an error with the validation text exactly when amount ≤ 0 or rate < 0; only the text "true" selects inclusive pricing; figures are the exact split rounded to two decimals |
| FullController.ExactPf | controller/calccontroller.js:65-73 | total earning = basic + DA; total contribution = employee + employer share = earning·(both rates)/100; equal rates give equal shares; non-negative inputs give non-negative shares |
| FullController.RoundPf | controller/calccontroller.js:76-79 | each PF figure becomes a whole number of cents within half a cent of the exact one |
| FullController.CalculatePF | controller/calccontroller.js:65-81 | an error with the validation text exactly when basic < 0 or DA < 0; otherwise the exact split rounded to two decimals |
| FullController.DefaultRatesSplitEvenly | controller/calccontroller.js:65 | with the default 12% / 12% rates the shares are equal, non-negative and total 24% of earnings |
| FullController.ExactHourlyRate | controller/calccontroller.js:90-93 | the hourly rate times 50·hours per week is the annual salary; positive for a positive salary |
| FullController.CalculateSalaryToHourly | controller/calccontroller.js:85-100 | an error with the validation text exactly when salary ≤ 0 or hours ≤ 0; otherwise 50 weeks, 50·hours rounded and the exact hourly rate rounded, which is non-negative |
| FullController.Respond | controller/calccontroller.js:130-134 | a helper's error text becomes an error envelope, its figures a success envelope |
| FullController.SelectTenure | controller/calccontroller.js:115-126 | the term is `months` when truthy, else `years`·12 when truthy, else there is none |
| FullController.MonthsTakePrecedence | controller/calccontroller.js:117-120 | a truthy `months` decides the term whatever `years` is |
| FullController.Emi | controller/calccontroller.js:109-135 | with neither `months` nor `years` the answer is the "Please provide months or years" error and nothing is computed; otherwise the EMI calculator's outcome on the chosen term; a success implies a positive principal, a non-negative rate and a positive term |
| FullController.Gst | controller/calccontroller.js:139-152 | the GST calculator's outcome, the `isInclusive` text passed on as given |
| FullController.Pf | controller/calccontroller.js:156-169 | the PF calculator's outcome at the default rates, with a missing or empty DA read as 0 |
| FullController.Salary | controller/calccontroller.js:173-186 | the salary calculator's outcome; a success exactly when both numbers are positive |
| FullController.GstExamples | controller/calccontroller.js:38-61 | 1000 at 18% exclusive gives 180 / 1000 / 1180; 1180 at 18% inclusive gives 180 / 1000 / 1180; a flag other than "true" is exclusive |
| FullController.PfExample | controller/calccontroller.js:65-81 | a basic pay of 20000 gives 2400 to each side and 4800 in all |
| FullController.SalaryAndEmiExamples | controller/calccontroller.js:6-19 | 100000 a year at 40 hours is 2000 hours at 50; 12000 over 12 months at 0% is 1000 a month with no interest; 1000 over half a month at 0% is 2000; a term of −0.5 is refused |
| ProController.EmiDefinedExactly | controllers/calcController.js:21-24 | for a rate above −1200% the formula has a value exactly when rate and months are both nonzero |
| ProController.EmiFormula | controllers/calcController.js:21-24 | for a positive number of months the formula's instalment clears the loan |
| ProController.Emi | controllers/calcController.js:10-32 | "Missing inputs" exactly when principal, rate or months is absent or empty; otherwise the inputs echoed with months truncated and the formula's EMI rounded to two decimals |
| ProController.GstOn | controllers/calcController.js:46 | the tax is the gst percentage of the amount: zero at a zero rate, non-negative for non-negative inputs |
| ProController.Gst | controllers/calcController.js:36-55 | "Missing inputs" exactly when amount or gst is absent or empty; otherwise the inputs echoed with the rounded tax and the rounded amount plus tax |
| ProController.GstTotalsNearlyAddUp | controllers/calcController.js:46-53 | the rounded total and the amount plus the rounded tax differ by at most 0.01 |
| ProController.PfShare | controllers/calcController.js:68-69 | each share is 12% of basic pay, between 0 and the pay for a non-negative pay |
| ProController.Pf | controllers/calcController.js:59-78 | "Missing input" exactly when basic is absent or empty; otherwise equal rounded shares and the rounded sum |
| ProController.HourlyOver52Weeks | controllers/calcController.js:92 | the hourly rate times 52·hours per week is the annual pay |
| ProController.Salary | controllers/calcController.js:82-99 | "Missing inputs" exactly when annual or hours is absent or empty; otherwise the inputs echoed with the rounded hourly rate |
| ProController.TablesArePositive | controllers/calcController.js:114-131 | every length and weight factor is positive |
| ProController.ScaleConvert | controllers/calcController.js:146-149 | the result expressed in base units equals the value expressed in base units |
| ProController.ScaleSameUnit | controllers/calcController.js:146-149 | converting to the same unit returns the value |
| ProController.ScaleRoundTrip | controllers/calcController.js:146-149 | converting A→B and back returns the value |
| ProController.ScaleCompose | controllers/calcController.js:146-149 | converting A→B→C is converting A→C |
| ProController.ToCelsius | controllers/calcController.js:135-138 | from Celsius the reading itself; from Kelvin, adding 273.15 gives back the reading; from Fahrenheit, C·9/5 + 32 gives it back |
| ProController.FromCelsius | controllers/calcController.js:140-142 | a Celsius temperature read on a scale converts back to the same Celsius temperature |
| ProController.CelsiusRoundTrip | controllers/calcController.js:134-143 | converting a reading to Celsius and back to its scale returns it |
| ProController.TempConvert | controllers/calcController.js:134-143 | the result is the same temperature as the value |
| ProController.TempRoundTrip | controllers/calcController.js:134-143 | converting A→B and back returns the value |
| ProController.TempCompose | controllers/calcController.js:134-143 | converting A→B→C is converting A→C |
| ProController.FixedPoints | controllers/calcController.js:134-143 | 0 °C is 32 °F, 32 °F is 273.15 K, 212 °F is 100 °C, 373.15 K is 212 °F |
| ProController.ConvertRoundTrip | controllers/calcController.js:145-153 | in every category converting to the same unit is the identity and A→B→A returns the value |
| ProController.ConvertValue | controllers/calcController.js:145-153 | for length and weight the result in base units equals the value in base units; for temperature the result is the same temperature as the value |
| ProController.ConvertLength | controllers/calcController.js:146 | result·factor[to] = value·factor[from] in the length table |
| ProController.ConvertWeight | controllers/calcController.js:149 | result·factor[to] = value·factor[from] in the weight table |
| ProController.LengthExamples | controllers/calcController.js:114-131 | 1 km is 1000 m, 1 mile is 1.60934 km, 2.5 kg is 2500 g |
| ProController.Unit | controllers/calcController.js:103-162 | "Missing inputs" exactly when category, from, to or value is absent or empty; otherwise the inputs echoed with the converted value rounded to four decimals |
| ProController.HandlerExamples | controllers/calcController.js:36-78 | 18% of 1000 gives tax 180 and total 1180; basic 20000 gives 2400 each and 4800 in all; an empty basic gives "Missing input" |
| ProController.UnitExample | controllers/calcController.js:103-162 | 1 Kilometer in Meter answers 1000 |
| Variants.EmiFormulasAgree | controllers/calcController.js:21-24 | at a positive rate over a positive term, every level payment that clears the loan is both controllers' EMI, so the two agree |
| Variants.GstFormulasAgree | controllers/calcController.js:46-47 | the simpler GST tax and total are the tax and gross of an exclusive split |
| Variants.PfFormulasAgree | controllers/calcController.js:68-70 | each simpler PF share is a default-rate share on basic pay alone, and the two make the total contribution |
| Variants.SalaryFormulasDiffer | controllers/calcController.js:92 | the 52-week rate times 52 equals the 50-week rate times 50, so for a positive salary it is lower |

## Left out

- Text parsing: `parseFloat` and `parseInt` are not modelled on text. A parameter carries the number `parseFloat` reads from it; `parseInt` is modelled as truncation of that reading, which differs for texts such as "1e3" or "0x10".
- NaN: texts with no numeric reading, and missing numbers in `controller/calccontroller.js` (which the source turns into NaN and carries through), are not modelled; the handlers require the numbers they use to be present.
- FullController.Emi: requires the chosen term to be a whole number of months when principal, rate and term are all positive; there the source passes a fractional `months` or `years`·12 on to `Math.pow`. Fractional terms that the guard refuses or that the zero-rate case divides by are modelled.
- ProController.Emi: requires the formula's denominator (1+r)^n − 1 to be nonzero and the power to exist. The source answers otherwise: at a zero rate 0/0, "NaN"; at zero months (from texts such as "0", "0.5", "-0.9") with a nonzero rate and principal P·r/0, "Infinity" or "-Infinity" (0/0, "NaN", for a zero principal); at a rate of −2400% over an even number of months, where (1+r)^n = 1, likewise an infinity; at a rate of exactly −1200% with negative months `Math.pow(0, n)` is Infinity and the quotient "NaN".
- ProController.Salary: requires nonzero weekly hours; the source divides by zero there.
- ProController.Unit: requires a known category and units or scales known to it. The source otherwise computes NaN for an unknown length or weight unit; returns `undefined` from `tempConvert` for an unknown target scale, or an unknown source scale with target "Celsius", and then throws on `undefined.toFixed`; answers NaN for an unknown source scale with another target; and throws on `null.toFixed` for an unknown category.
- Rounding: `toFixed` is modelled on exact decimals with halves rounded away from zero; binary floating-point representation, which makes some halves round down, is not modelled.
- `toFixed` in `controllers/calcController.js` returns strings; the model keeps the rounded number.
- HTTP: status codes (400 for the errors of `controller/calccontroller.js`) and the Express request/response objects are not modelled; a handler returns the JSON body.
- Routes: `index.js`, `routes/calcRoutes.js` and `routes/apiroutes.js` only bind URLs to handlers; `/fuel`, `/bmi`, `/percentage`, `/time` and `/age` name handlers that do not exist and are not modelled.
