/**
 * The calculator helpers of controller/calccontroller.js (EMI, GST, provident fund, salary to
 * hourly rate) and the request handlers that read their inputs from the query string and wrap
 * the outcome in the response envelope. Every helper checks its inputs first and returns an
 * error text instead of figures when they are out of range; figures are rounded with
 * `toFixed(2)` and read back as numbers.
 */
module FullController {
  import opened Wrappers
  import opened Rounding
  import opened Amortization
  import opened Query
  import opened Responses

  const InvalidEmi := "Invalid input: Principal, Rate & Tenure must be valid."
  const InvalidGst := "Invalid input: Amount must be positive & rate non-negative."
  const InvalidPf := "Invalid input: salary values cannot be negative."
  const InvalidSalary := "Invalid salary or working hours."
  const MissingTenure := "Please provide months or years"

  // ---------------------------------------------------------------- EMI

  /** The figures `calculateEMI` answers with. */
  datatype EmiFigures = EmiFigures(emi: real, totalInterest: real, totalPayment: real)

  /**
   * The unrounded monthly instalment: principal / tenure when the monthly rate is zero,
   * otherwise the amortisation formula. It is the payment that leaves nothing owed.
   */
  function ExactEmi(principal: real, annualRate: real, tenureMonths: nat): (emi: real)
    requires annualRate >= 0.0 && tenureMonths > 0
    ensures Balance(principal, MonthlyRate(annualRate), emi, tenureMonths) == 0.0
    ensures annualRate == 0.0 ==> emi == principal / tenureMonths as real
  {
    LevelPayment(principal, MonthlyRate(annualRate), tenureMonths)
  }

  /** At a positive rate the instalment is the amortisation formula P·r·(1+r)^n / ((1+r)^n − 1). */
  lemma ExactEmiIsFormula(principal: real, annualRate: real, tenureMonths: nat)
    requires annualRate > 0.0 && tenureMonths > 0
    ensures Pow(1.0 + MonthlyRate(annualRate), tenureMonths) > 1.0
    ensures ExactEmi(principal, annualRate, tenureMonths) == Instalment(principal, MonthlyRate(annualRate), tenureMonths)
  {
    PowAwayFromOne(1.0 + MonthlyRate(annualRate), tenureMonths);
  }

  /** What the borrower pays over the whole term: the unrounded instalment times the tenure. */
  function TotalRepaid(principal: real, annualRate: real, tenureMonths: nat): (total: real)
    requires annualRate >= 0.0 && tenureMonths > 0
    ensures annualRate == 0.0 ==> total == principal
    ensures principal > 0.0 && annualRate > 0.0 ==> total > principal
  {
    var emi := ExactEmi(principal, annualRate, tenureMonths);
    if principal > 0.0 && annualRate > 0.0 then
      ClearingPaymentsExceedPrincipal(principal, MonthlyRate(annualRate), emi, tenureMonths);
      emi * tenureMonths as real
    else
      emi * tenureMonths as real
  }

  /**
   * `calculateEMI(principal, annualRate, tenureMonths)`. The tenure is the number read from the
   * query, so it may have a fraction; the model requires a whole tenure only where the source
   * raises the growth factor to it, at a positive rate.
   */
  function CalculateEMI(principal: real, annualRate: real, tenureMonths: real): (r: Result<EmiFigures>)
    requires principal > 0.0 && annualRate > 0.0 && tenureMonths > 0.0 ==> IsWhole(tenureMonths)
    ensures r.Err? <==> principal <= 0.0 || annualRate < 0.0 || tenureMonths <= 0.0
    ensures r.Err? ==> r.error == InvalidEmi
    ensures r.Ok? && annualRate == 0.0 ==>
      r.value == EmiFigures(ToFixed(principal / tenureMonths, 2), 0.0, principal)
    ensures r.Ok? && IsWhole(tenureMonths) ==>
      r.value.emi == ToFixed(ExactEmi(principal, annualRate, tenureMonths.Floor), 2)
    ensures r.Ok? && annualRate > 0.0 ==>
      && r.value.totalPayment == ToFixed(TotalRepaid(principal, annualRate, tenureMonths.Floor), 2)
      && r.value.totalInterest == ToFixed(TotalRepaid(principal, annualRate, tenureMonths.Floor) - principal, 2)
      && r.value.totalInterest >= 0.0
  {
    if principal <= 0.0 || annualRate < 0.0 || tenureMonths <= 0.0 then
      Err(InvalidEmi)
    else if MonthlyRate(annualRate) == 0.0 then
      Ok(EmiFigures(ToFixed(principal / tenureMonths, 2), 0.0, principal))
    else
      var n := tenureMonths.Floor;
      var emi := ExactEmi(principal, annualRate, n);
      var totalPayment := TotalRepaid(principal, annualRate, n);
      Ok(EmiFigures(ToFixed(emi, 2), ToFixed(totalPayment - principal, 2), ToFixed(totalPayment, 2)))
  }

  // ---------------------------------------------------------------- GST

  /** The figures `calculateGST` answers with. */
  datatype GstFigures = GstFigures(gstAmount: real, netAmount: real, grossAmount: real)

  /**
   * The unrounded split of an amount at a GST percentage. Either way the tax is the rate applied
   * to the net amount and the gross is net plus tax; inclusive pricing takes the amount as the
   * gross, exclusive pricing as the net.
   */
  function ExactGst(amount: real, rate: real, inclusive: bool): (f: GstFigures)
    requires rate >= 0.0
    ensures f.gstAmount == f.netAmount * (rate / 100.0)
    ensures f.grossAmount == f.netAmount + f.gstAmount
    ensures inclusive ==> f.grossAmount == amount
    ensures !inclusive ==> f.netAmount == amount
  {
    var gstRate := rate / 100.0;
    if inclusive then
      var netAmount := amount / (1.0 + gstRate);
      assert amount - netAmount == netAmount * gstRate by {
        assert netAmount * (1.0 + gstRate) == amount;
      }
      GstFigures(amount - netAmount, netAmount, amount)
    else
      GstFigures(amount * gstRate, amount, amount + amount * gstRate)
  }

  /** Splitting a tax-inclusive price recovers the net amount that an exclusive split started from. */
  lemma InclusiveUndoesExclusive(amount: real, rate: real)
    requires rate >= 0.0
    ensures ExactGst(ExactGst(amount, rate, false).grossAmount, rate, true) == ExactGst(amount, rate, false)
  {
    var g := rate / 100.0;
    var gross := ExactGst(amount, rate, false).grossAmount;
    var back := ExactGst(gross, rate, true);
    assert back.netAmount * (1.0 + g) == amount * (1.0 + g);
    assert back.netAmount == amount;
  }

  /** Each figure rounded to two decimals: a whole number of cents within half a cent of the exact one. */
  function RoundGst(f: GstFigures): (g: GstFigures)
    ensures HasDecimals(g.gstAmount, 2) && HasDecimals(g.netAmount, 2) && HasDecimals(g.grossAmount, 2)
    ensures f.gstAmount - 0.5 / Scale(2) <= g.gstAmount <= f.gstAmount + 0.5 / Scale(2)
    ensures f.netAmount - 0.5 / Scale(2) <= g.netAmount <= f.netAmount + 0.5 / Scale(2)
    ensures f.grossAmount - 0.5 / Scale(2) <= g.grossAmount <= f.grossAmount + 0.5 / Scale(2)
  {
    GstFigures(ToFixed(f.gstAmount, 2), ToFixed(f.netAmount, 2), ToFixed(f.grossAmount, 2))
  }

  /** `calculateGST(amount, rate, isInclusive)`; only the exact text "true" selects inclusive pricing. */
  function CalculateGST(amount: real, rate: real, isInclusive: Option<string>): (r: Result<GstFigures>)
    ensures r.Err? <==> amount <= 0.0 || rate < 0.0
    ensures r.Err? ==> r.error == InvalidGst
    ensures r.Ok? ==> r.value == RoundGst(ExactGst(amount, rate, isInclusive == Some("true")))
    ensures r.Ok? && isInclusive == Some("true") ==> r.value.grossAmount == ToFixed(amount, 2)
    ensures r.Ok? && isInclusive != Some("true") ==> r.value.netAmount == ToFixed(amount, 2)
  {
    if amount <= 0.0 || rate < 0.0 then Err(InvalidGst)
    else Ok(RoundGst(ExactGst(amount, rate, isInclusive == Some("true"))))
  }

  // ---------------------------------------------------------------- PF

  /** The figures `calculatePF` answers with. */
  datatype PfFigures = PfFigures(totalEarning: real, employeeShare: real, employerShare: real, totalContribution: real)

  /** The default contribution percentage of employee and of employer. */
  const DefaultPfRate := 12.0

  /** The unrounded provident-fund split of basic pay plus dearness allowance. */
  function ExactPf(basic: real, da: real, employeeRate: real, employerRate: real): (f: PfFigures)
    ensures f.totalEarning == basic + da
    ensures f.totalContribution == f.employeeShare + f.employerShare
    ensures f.totalContribution == f.totalEarning * ((employeeRate + employerRate) / 100.0)
    ensures employeeRate == employerRate ==> f.employeeShare == f.employerShare
    ensures basic >= 0.0 && da >= 0.0 && employeeRate >= 0.0 && employerRate >= 0.0 ==>
      f.employeeShare >= 0.0 && f.employerShare >= 0.0
  {
    var totalEarning := basic + da;
    var employeeShare := totalEarning * (employeeRate / 100.0);
    var employerShare := totalEarning * (employerRate / 100.0);
    PfFigures(totalEarning, employeeShare, employerShare, employeeShare + employerShare)
  }

  /** Each figure rounded to two decimals: a whole number of cents within half a cent of the exact one. */
  function RoundPf(f: PfFigures): (g: PfFigures)
    ensures HasDecimals(g.totalEarning, 2) && HasDecimals(g.employeeShare, 2)
    ensures HasDecimals(g.employerShare, 2) && HasDecimals(g.totalContribution, 2)
    ensures f.totalEarning - 0.5 / Scale(2) <= g.totalEarning <= f.totalEarning + 0.5 / Scale(2)
    ensures f.employeeShare - 0.5 / Scale(2) <= g.employeeShare <= f.employeeShare + 0.5 / Scale(2)
    ensures f.employerShare - 0.5 / Scale(2) <= g.employerShare <= f.employerShare + 0.5 / Scale(2)
    ensures f.totalContribution - 0.5 / Scale(2) <= g.totalContribution <= f.totalContribution + 0.5 / Scale(2)
  {
    PfFigures(ToFixed(f.totalEarning, 2), ToFixed(f.employeeShare, 2),
              ToFixed(f.employerShare, 2), ToFixed(f.totalContribution, 2))
  }

  /** `calculatePF(basicSalary, da, employeeRate, employerRate)`. */
  function CalculatePF(basic: real, da: real, employeeRate: real, employerRate: real): (r: Result<PfFigures>)
    ensures r.Err? <==> basic < 0.0 || da < 0.0
    ensures r.Err? ==> r.error == InvalidPf
    ensures r.Ok? ==> r.value == RoundPf(ExactPf(basic, da, employeeRate, employerRate))
  {
    if basic < 0.0 || da < 0.0 then Err(InvalidPf)
    else Ok(RoundPf(ExactPf(basic, da, employeeRate, employerRate)))
  }

  /** With the default 12% / 12% rates employee and employer pay the same, 24% of earnings between them. */
  lemma DefaultRatesSplitEvenly(basic: real, da: real)
    requires basic >= 0.0 && da >= 0.0
    ensures CalculatePF(basic, da, DefaultPfRate, DefaultPfRate).Ok?
    ensures var f := CalculatePF(basic, da, DefaultPfRate, DefaultPfRate).value;
      && f.employeeShare == f.employerShare
      && f.employeeShare >= 0.0
      && f.totalContribution == ToFixed((basic + da) * 0.24, 2)
  {
  }

  // ---------------------------------------------------------------- Salary

  /** The figures `calculateSalaryToHourly` answers with. */
  datatype HourlyFigures = HourlyFigures(annualWorkingWeeks: int, annualWorkingHours: real, hourlyRate: real)

  /** Working weeks in a year in this controller: 52 less two weeks off. */
  const AnnualWorkingWeeks := 50

  /** The unrounded hourly rate: the hours it is paid for over a year give back the annual salary. */
  function ExactHourlyRate(annualSalary: real, hoursPerWeek: real): (rate: real)
    requires hoursPerWeek > 0.0
    ensures rate * (AnnualWorkingWeeks as real * hoursPerWeek) == annualSalary
    ensures annualSalary > 0.0 ==> rate > 0.0
  {
    annualSalary / (AnnualWorkingWeeks as real * hoursPerWeek)
  }

  /** `calculateSalaryToHourly(annualSalary, workingHoursPerWeek)`. */
  function CalculateSalaryToHourly(annualSalary: real, hoursPerWeek: real): (r: Result<HourlyFigures>)
    ensures r.Err? <==> annualSalary <= 0.0 || hoursPerWeek <= 0.0
    ensures r.Err? ==> r.error == InvalidSalary
    ensures r.Ok? ==>
      && r.value.annualWorkingWeeks == 50
      && r.value.annualWorkingHours == ToFixed(50.0 * hoursPerWeek, 2)
      && r.value.hourlyRate == ToFixed(ExactHourlyRate(annualSalary, hoursPerWeek), 2)
      && r.value.hourlyRate >= 0.0
  {
    if annualSalary <= 0.0 || hoursPerWeek <= 0.0 then Err(InvalidSalary)
    else
      var annualWorkingHours := AnnualWorkingWeeks as real * hoursPerWeek;
      Ok(HourlyFigures(AnnualWorkingWeeks, ToFixed(annualWorkingHours, 2),
                       ToFixed(ExactHourlyRate(annualSalary, hoursPerWeek), 2)))
  }

  // ---------------------------------------------------------------- Handlers

  /** How the handlers answer a helper's outcome: its error text as an error, its figures as data. */
  function Respond<T>(r: Result<T>): (e: Envelope<T>)
    ensures WellTagged(e)
    ensures e.status == "success" <==> r.Ok?
    ensures r.Ok? ==> e.data == Some(r.value)
    ensures r.Err? ==> e.message == Some(r.error)
  {
    match r
    case Ok(figures) => Success(figures)
    case Err(text) => Failure(text)
  }

  /** The loan term chosen by the EMI handler: `months` when given, else `years` · 12, else none. */
  function SelectTenure(months: Option<Param>, years: Option<Param>): (t: Option<real>)
    ensures t.None? <==> !Truthy(months) && !Truthy(years)
    ensures Truthy(months) ==> t == Some(months.value.number)
    ensures !Truthy(months) && Truthy(years) ==> t == Some(years.value.number * 12.0)
  {
    if Truthy(months) then Some(months.value.number)
    else if Truthy(years) then Some(years.value.number * 12.0)
    else None
  }

  /** A given `months` decides the term whatever `years` says. */
  lemma MonthsTakePrecedence(months: Option<Param>, years: Option<Param>, otherYears: Option<Param>)
    requires Truthy(months)
    ensures SelectTenure(months, years) == SelectTenure(months, otherYears)
  {
  }

  /** `exports.emi`: choose the term, then run `calculateEMI` on it. */
  function Emi(principal: Option<Param>, rate: Option<Param>, months: Option<Param>, years: Option<Param>)
    : (e: Envelope<EmiFigures>)
    requires SelectTenure(months, years).Some? ==>
      && Truthy(principal) && Truthy(rate)
      && (principal.value.number > 0.0 && rate.value.number > 0.0 && SelectTenure(months, years).value > 0.0
          ==> IsWhole(SelectTenure(months, years).value))
    ensures WellTagged(e)
    ensures !Truthy(months) && !Truthy(years) ==> e == Failure(MissingTenure)
    ensures Truthy(months) || Truthy(years) ==>
      e == Respond(CalculateEMI(principal.value.number, rate.value.number, SelectTenure(months, years).value))
    ensures e.status == "success" ==>
      principal.value.number > 0.0 && rate.value.number >= 0.0 && SelectTenure(months, years).value > 0.0
  {
    match SelectTenure(months, years)
    case None => Failure(MissingTenure)
    case Some(tenure) => Respond(CalculateEMI(principal.value.number, rate.value.number, tenure))
  }

  /** `exports.gst`: the `isInclusive` text is passed on untouched. */
  function Gst(amount: Option<Param>, rate: Option<Param>, isInclusive: Option<Param>)
    : (e: Envelope<GstFigures>)
    requires Truthy(amount) && Truthy(rate)
    ensures WellTagged(e)
    ensures e == Respond(CalculateGST(amount.value.number, rate.value.number,
                                      if isInclusive.Some? then Some(isInclusive.value.text) else None))
  {
    var flag := if isInclusive.Some? then Some(isInclusive.value.text) else None;
    Respond(CalculateGST(amount.value.number, rate.value.number, flag))
  }

  /** `exports.pf`: a missing or empty `da` counts as 0; the rates stay at their defaults. */
  function Pf(basic: Option<Param>, da: Option<Param>): (e: Envelope<PfFigures>)
    requires Truthy(basic)
    ensures WellTagged(e)
    ensures !Truthy(da) ==> e == Respond(CalculatePF(basic.value.number, 0.0, DefaultPfRate, DefaultPfRate))
    ensures Truthy(da) ==>
      e == Respond(CalculatePF(basic.value.number, da.value.number, DefaultPfRate, DefaultPfRate))
  {
    var daValue := if Truthy(da) then da.value.number else 0.0;
    Respond(CalculatePF(basic.value.number, daValue, DefaultPfRate, DefaultPfRate))
  }

  /** `exports.salary`. */
  function Salary(annual: Option<Param>, hours: Option<Param>): (e: Envelope<HourlyFigures>)
    requires Truthy(annual) && Truthy(hours)
    ensures WellTagged(e)
    ensures e.status == "success" <==> annual.value.number > 0.0 && hours.value.number > 0.0
    ensures e == Respond(CalculateSalaryToHourly(annual.value.number, hours.value.number))
  {
    Respond(CalculateSalaryToHourly(annual.value.number, hours.value.number))
  }

  // ---------------------------------------------------------------- Worked examples

  /** 1000 at 18% exclusive carries 180 of tax; 1180 at 18% inclusive splits back into 1000 and 180. */
  lemma GstExamples()
    ensures CalculateGST(1000.0, 18.0, None) == Ok(GstFigures(180.0, 1000.0, 1180.0))
    ensures CalculateGST(1180.0, 18.0, Some("true")) == Ok(GstFigures(180.0, 1000.0, 1180.0))
    ensures CalculateGST(1180.0, 18.0, Some("yes")) == Ok(GstFigures(212.4, 1180.0, 1392.4))
  {
    ToFixedKeepsDecimals(180.0, 2);
    ToFixedKeepsDecimals(1000.0, 2);
    ToFixedKeepsDecimals(1180.0, 2);
    ToFixedKeepsDecimals(212.4, 2);
    ToFixedKeepsDecimals(1392.4, 2);
  }

  /** On a basic pay of 20000 with no allowance each side pays 2400. */
  lemma PfExample()
    ensures CalculatePF(20000.0, 0.0, DefaultPfRate, DefaultPfRate) == Ok(PfFigures(20000.0, 2400.0, 2400.0, 4800.0))
  {
    ToFixedKeepsDecimals(20000.0, 2);
    ToFixedKeepsDecimals(2400.0, 2);
    ToFixedKeepsDecimals(4800.0, 2);
  }

  /**
   * 100000 a year at 40 hours a week is 2000 hours at 50 an hour; 12000 over 12 months at 0% is
   * 1000 a month; at 0% half a month is simply divided; a negative term is refused.
   */
  lemma SalaryAndEmiExamples()
    ensures CalculateSalaryToHourly(100000.0, 40.0) == Ok(HourlyFigures(50, 2000.0, 50.0))
    ensures CalculateEMI(12000.0, 0.0, 12.0) == Ok(EmiFigures(1000.0, 0.0, 12000.0))
    ensures CalculateEMI(1000.0, 0.0, 0.5) == Ok(EmiFigures(2000.0, 0.0, 1000.0))
    ensures CalculateEMI(1000.0, 12.0, -0.5) == Err(InvalidEmi)
  {
    ToFixedKeepsDecimals(2000.0, 2);
    ToFixedKeepsDecimals(50.0, 2);
    ToFixedKeepsDecimals(1000.0, 2);
  }
}
