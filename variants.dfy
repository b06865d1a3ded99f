/**
 * How the two controllers relate where their calculators overlap: on the inputs both accept,
 * the EMI, GST and PF formulas give the same unrounded figures, while the salary calculators
 * differ by the number of working weeks they assume.
 */
module Variants {
  import opened Amortization
  import FullController
  import ProController

  /**
   * For a positive rate and a term of at least a month, any level payment that clears the loan
   * is the instalment of both EMI formulas; so the two controllers compute the same instalment.
   */
  lemma EmiFormulasAgree(principal: real, rate: real, months: nat, payment: real)
    requires rate > 0.0 && months > 0
    requires Balance(principal, MonthlyRate(rate), payment, months) == 0.0
    ensures ProController.EmiDefined(rate, months)
    ensures ProController.EmiFormula(principal, rate, months) == payment
    ensures FullController.ExactEmi(principal, rate, months) == payment
  {
    ProController.EmiDefinedExactly(rate, months);
    ClearingPaymentIsUnique(principal, MonthlyRate(rate),
                            ProController.EmiFormula(principal, rate, months), payment, months);
    ClearingPaymentIsUnique(principal, MonthlyRate(rate),
                            FullController.ExactEmi(principal, rate, months), payment, months);
  }

  /** The tax of the simpler GST calculator is the tax of a tax-exclusive split, and its total the gross. */
  lemma GstFormulasAgree(amount: real, rate: real)
    requires rate >= 0.0
    ensures ProController.GstOn(amount, rate) == FullController.ExactGst(amount, rate, false).gstAmount
    ensures amount + ProController.GstOn(amount, rate) == FullController.ExactGst(amount, rate, false).grossAmount
  {
  }

  /** Each side's PF share is the default-rate share on basic pay alone, and the two add to the total contribution. */
  lemma PfFormulasAgree(basic: real)
    ensures var f := FullController.ExactPf(basic, 0.0, FullController.DefaultPfRate, FullController.DefaultPfRate);
      && ProController.PfShare(basic) == f.employeeShare
      && ProController.PfShare(basic) == f.employerShare
      && ProController.PfShare(basic) + ProController.PfShare(basic) == f.totalContribution
  {
  }

  /** Spread over 52 weeks instead of 50, the same pay gives a proportionally lower hourly rate. */
  lemma SalaryFormulasDiffer(annual: real, hours: real)
    requires hours > 0.0
    ensures ProController.HourlyOver52Weeks(annual, hours) * 52.0
         == FullController.ExactHourlyRate(annual, hours) * 50.0
    ensures annual > 0.0 ==>
      ProController.HourlyOver52Weeks(annual, hours) < FullController.ExactHourlyRate(annual, hours)
  {
    var weekly := annual / hours;
    assert ProController.HourlyOver52Weeks(annual, hours) * 52.0 == weekly;
    assert FullController.ExactHourlyRate(annual, hours) * 50.0 == weekly;
  }
}
