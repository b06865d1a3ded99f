/**
 * The loan arithmetic behind both EMI calculators: `Math.pow(1 + r, n)` for whole exponents,
 * the outstanding balance of a loan repaid by equal monthly instalments, and the amortisation
 * formula `P·r·(1+r)^n / ((1+r)^n − 1)`, shown to be the one level payment that clears the loan.
 */
module Amortization {

  /** The monthly rate for a yearly percentage, as both controllers compute it: rate / (12 · 100). */
  function MonthlyRate(annualRate: real): (r: real)
    ensures r * 1200.0 == annualRate
  {
    annualRate / (12.0 * 100.0)
  }

  /** b^n for a whole exponent n. */
  function Pow(b: real, n: nat): real
  {
    if n == 0 then 1.0 else b * Pow(b, n - 1)
  }

  /** A power of a non-zero base is non-zero, and of a positive base positive. */
  lemma {:induction false} PowSign(b: real, n: nat)
    ensures b != 0.0 ==> Pow(b, n) != 0.0
    ensures b > 0.0 ==> Pow(b, n) > 0.0
  {
    if n > 0 {
      PowSign(b, n - 1);
      SignAlgebra(b, Pow(b, n - 1));
    }
  }

  /** Signs of a product, over plain numbers. */
  lemma SignAlgebra(a: real, c: real)
    ensures a != 0.0 && c != 0.0 ==> a * c != 0.0
    ensures a > 0.0 && c > 0.0 ==> a * c > 0.0
    ensures a > 0.0 && c >= 0.0 ==> a * c >= 0.0
  {
  }

  /** A growth factor above one grows, one below one shrinks, over at least one step. */
  lemma {:induction false} PowAwayFromOne(b: real, n: nat)
    requires b > 0.0 && n > 0
    ensures b > 1.0 ==> Pow(b, n) > 1.0
    ensures b < 1.0 ==> Pow(b, n) < 1.0
  {
    if n > 1 {
      PowAwayFromOne(b, n - 1);
      PowSign(b, n - 1);
      ScaleAlgebra(b, Pow(b, n - 1));
    }
  }

  /** Multiplying by a factor above (below) one moves a value above (below) one further out. */
  lemma ScaleAlgebra(b: real, q: real)
    requires b > 0.0
    ensures b > 1.0 && q > 1.0 ==> b * q > 1.0
    ensures b < 1.0 && 0.0 < q < 1.0 ==> b * q < 1.0
  {
    assert b > 1.0 && q > 1.0 ==> b * q > q;
    assert b < 1.0 && 0.0 < q ==> b * q < q;
  }

  /** One to any power is one. */
  lemma {:induction false} PowOfOne(n: nat)
    ensures Pow(1.0, n) == 1.0
  {
    if n > 0 {
      PowOfOne(n - 1);
    }
  }

  /** `Math.pow(b, n)` for any integer exponent: a negative one gives 1 / b^-n. */
  function IntPow(b: real, n: int): (p: real)
    requires n >= 0 || b != 0.0
    ensures n >= 0 ==> p == Pow(b, n)
    ensures n < 0 ==> p * Pow(b, -n) == 1.0
    ensures b > 0.0 ==> p > 0.0
    ensures b > 0.0 && b != 1.0 && n != 0 ==> p != 1.0
  {
    if n == 0 then 1.0
    else if n > 0 then
      PowSign(b, n);
      if b > 0.0 then PowAwayFromOne(b, n); Pow(b, n) else Pow(b, n)
    else
      PowSign(b, -n);
      if b > 0.0 then PowAwayFromOne(b, -n); 1.0 / Pow(b, -n) else 1.0 / Pow(b, -n)
  }

  /** 1 + b + ... + b^(n-1), in Horner form. */
  function Geo(b: real, n: nat): real
  {
    if n == 0 then 0.0 else b * Geo(b, n - 1) + 1.0
  }

  /** With a positive base the sum of at least one power is at least one. */
  lemma {:induction false} GeoAtLeastOne(b: real, n: nat)
    requires b > 0.0
    ensures Geo(b, n) >= 0.0
    ensures n > 0 ==> Geo(b, n) >= 1.0
  {
    if n > 0 {
      GeoAtLeastOne(b, n - 1);
      SignAlgebra(b, Geo(b, n - 1));
    }
  }

  /**
   * What is still owed on a loan of `principal` at monthly rate `r` after `months` instalments
   * of `payment`: each month the balance accrues interest and one instalment is paid.
   */
  function Balance(principal: real, r: real, payment: real, months: nat): real
  {
    if months == 0 then principal
    else Balance(principal, r, payment, months - 1) * (1.0 + r) - payment
  }

  /** The balance in closed form: the grown principal less the grown instalments. */
  lemma {:induction false} BalanceClosedForm(principal: real, r: real, payment: real, months: nat)
    ensures Balance(principal, r, payment, months)
         == principal * Pow(1.0 + r, months) - payment * Geo(1.0 + r, months)
  {
    if months > 0 {
      BalanceClosedForm(principal, r, payment, months - 1);
      StepAlgebra(principal, payment, 1.0 + r,
                  Balance(principal, r, payment, months - 1),
                  Pow(1.0 + r, months - 1), Geo(1.0 + r, months - 1),
                  Pow(1.0 + r, months), Geo(1.0 + r, months));
    } else {
      assert Pow(1.0 + r, months) == 1.0 && Geo(1.0 + r, months) == 0.0;
    }
  }

  /** One month of the closed form, as ring algebra over plain numbers. */
  lemma StepAlgebra(principal: real, e: real, b: real, prev: real, p: real, g: real, x: real, h: real)
    requires prev == principal * p - e * g
    requires x == b * p && h == b * g + 1.0
    ensures prev * b - e == principal * x - e * h
  {
  }

  /** The geometric sum telescopes: (b − 1)·(1 + b + ... + b^(n-1)) = b^n − 1. */
  lemma {:induction false} GeoTelescopes(b: real, n: nat)
    ensures (b - 1.0) * Geo(b, n) == Pow(b, n) - 1.0
  {
    if n > 0 {
      GeoTelescopes(b, n - 1);
      var g := Geo(b, n - 1);
      assert (b - 1.0) * (b * g + 1.0) == b * ((b - 1.0) * g) + b - 1.0;
    }
  }

  /** At a zero rate the geometric sum simply counts the months. */
  lemma {:induction false} GeoAtOne(n: nat)
    ensures Geo(1.0, n) == n as real
  {
    if n > 0 {
      GeoAtOne(n - 1);
    }
  }

  /** The amortisation formula, as the source writes it, with growth factor (1+r)^n. */
  function Instalment(principal: real, r: real, months: nat): (e: real)
    requires Pow(1.0 + r, months) != 1.0
    ensures e * (Pow(1.0 + r, months) - 1.0) == principal * r * Pow(1.0 + r, months)
  {
    AnnuityQuotient(principal, r, Pow(1.0 + r, months))
  }

  /** P·r·x / (x − 1) for a growth x other than one. */
  function AnnuityQuotient(principal: real, r: real, growth: real): (q: real)
    requires growth != 1.0
    ensures q * (growth - 1.0) == principal * r * growth
  {
    (principal * r * growth) / (growth - 1.0)
  }

  /** The instalment times the geometric sum is the grown principal. */
  lemma InstalmentTimesGeo(principal: real, r: real, months: nat)
    requires Pow(1.0 + r, months) != 1.0
    ensures Instalment(principal, r, months) * Geo(1.0 + r, months)
         == principal * Pow(1.0 + r, months)
  {
    GeoTelescopes(1.0 + r, months);
    QuotientAlgebra(principal, r, 1.0 + r, Pow(1.0 + r, months), Geo(1.0 + r, months),
                    Instalment(principal, r, months));
  }

  /** Dividing by the growth less one cancels against r times the geometric sum. */
  lemma QuotientAlgebra(principal: real, r: real, b: real, x: real, g: real, e: real)
    requires b == 1.0 + r
    requires x != 1.0
    requires (b - 1.0) * g == x - 1.0
    requires e == AnnuityQuotient(principal, r, x)
    ensures e * g == principal * x
  {
    var d := x - 1.0;
    assert r * g == d;
    assert e * d == principal * r * x;
    assert r != 0.0;
    assert (e * g) * r == (principal * x) * r;
  }

  /** A rate above −100% other than zero, over at least one month, keeps the formula's denominator away from zero. */
  lemma GrowthIsNotOne(r: real, months: nat)
    requires r > -1.0 && r != 0.0 && months > 0
    ensures Pow(1.0 + r, months) != 1.0
  {
    PowAwayFromOne(1.0 + r, months);
  }

  /** Paying the formula's instalment every month leaves nothing owed after the last month. */
  lemma InstalmentClearsLoan(principal: real, r: real, months: nat)
    requires Pow(1.0 + r, months) != 1.0
    ensures Balance(principal, r, Instalment(principal, r, months), months) == 0.0
  {
    BalanceClosedForm(principal, r, Instalment(principal, r, months), months);
    InstalmentTimesGeo(principal, r, months);
  }

  /** At a zero rate, principal / months each month clears the loan. */
  lemma EvenSplitClearsLoan(principal: real, months: nat)
    requires months > 0
    ensures Balance(principal, 0.0, principal / months as real, months) == 0.0
  {
    BalanceClosedForm(principal, 0.0, principal / months as real, months);
    GeoAtOne(months);
    PowOfOne(months);
  }

  /** The level payment for a term: an even split at a zero rate, otherwise the formula. */
  function LevelPayment(principal: real, r: real, months: nat): (payment: real)
    requires r > -1.0 && months > 0
    ensures Balance(principal, r, payment, months) == 0.0
  {
    if r == 0.0 then
      EvenSplitClearsLoan(principal, months);
      principal / months as real
    else
      GrowthIsNotOne(r, months);
      InstalmentClearsLoan(principal, r, months);
      Instalment(principal, r, months)
  }

  /** Two level payments that both clear the same loan over the same term are the same payment. */
  lemma ClearingPaymentIsUnique(principal: real, r: real, e: real, f: real, months: nat)
    requires r > -1.0 && months > 0
    requires Balance(principal, r, e, months) == 0.0 && Balance(principal, r, f, months) == 0.0
    ensures e == f
  {
    BalanceClosedForm(principal, r, e, months);
    BalanceClosedForm(principal, r, f, months);
    GeoAtLeastOne(1.0 + r, months);
    CancelAlgebra(principal * Pow(1.0 + r, months), e, f, Geo(1.0 + r, months));
  }

  /** Two payments that leave the same remainder of the same grown principal are equal. */
  lemma CancelAlgebra(grown: real, e: real, f: real, g: real)
    requires grown - e * g == 0.0 && grown - f * g == 0.0 && g > 0.0
    ensures e == f
  {
    assert (f - e) * g == 0.0;
  }

  /** Below 1 + b + ... + b^(n-1) lies n·b^n when b > 1. */
  lemma {:induction false} GeoBelowTerm(b: real, n: nat)
    requires b > 1.0 && n > 0
    ensures Geo(b, n) < n as real * Pow(b, n)
  {
    if n > 1 {
      GeoBelowTerm(b, n - 1);
      PowAwayFromOne(b, n - 1);
      GeoStepAlgebra(b, Geo(b, n - 1), Pow(b, n - 1), Pow(b, n), (n - 1) as real);
    } else {
      assert Geo(b, n) == 1.0 && Pow(b, n) == b;
    }
  }

  /** One step of GeoBelowTerm, over plain numbers. */
  lemma GeoStepAlgebra(b: real, g: real, p: real, x: real, k: real)
    requires b > 1.0 && p > 1.0 && g < k * p && x == b * p
    ensures b * g + 1.0 < (k + 1.0) * x
  {
    assert b * g < k * x;
    assert 1.0 < x;
  }

  /** With a positive rate, any level payment that clears the loan repays more than was borrowed. */
  lemma ClearingPaymentsExceedPrincipal(principal: real, r: real, e: real, months: nat)
    requires principal > 0.0 && r > 0.0 && months > 0
    requires Balance(principal, r, e, months) == 0.0
    ensures e * months as real > principal
  {
    var b := 1.0 + r;
    var x, g := Pow(b, months), Geo(b, months);
    assert Balance(principal, r, e, months) == principal * x - e * g by {
      BalanceClosedForm(principal, r, e, months);
    }
    assert 0.0 < g < months as real * x by {
      GeoBelowTerm(b, months);
      GeoAtLeastOne(b, months);
    }
    ExceedsAlgebra(Balance(principal, r, e, months), e, g, principal, x, months as real);
  }

  /** If the balance P·x − e·g is 0 with 0 < g < n·x and P > 0, then e·n exceeds P. */
  lemma ExceedsAlgebra(balance: real, e: real, g: real, principal: real, x: real, n: real)
    requires balance == principal * x - e * g && balance == 0.0
    requires g > 0.0 && g < n * x && principal > 0.0
    ensures e * n > principal
  {
    assert principal * g < principal * (n * x);
    assert e * n * g == principal * (n * x);
    assert (e * n - principal) * g > 0.0;
  }
}
