/**
  The amortisation calculator: the monthly payment and total cost of a
  financing plan (a loan repaid under the fixed-instalment "Tabela Price"
  annuity) and of a consortium plan (a flat administration fee spread over
  equal instalments).

  Money is modelled as exact `real`, the number of instalments as `nat`, and
  `Math.pow` with a whole exponent as the recursive `Pow`. With exact
  arithmetic, the source's `isNaN(...) ? 0 : ...` guards only ever fire on
  inputs whose result is not a finite number; the preconditions below exclude
  exactly the inputs for which the source, computed exactly, returns a
  non-finite value, and the one input where a NaN guard turns an infinite
  intermediate into a finite result is modelled explicitly (see
  `FinancingTotal`). Floating-point overflow of `Math.pow` is not modelled.
 */
module Amortization {

  /** A financing plan: `interestRate` is a percentage per month. */
  datatype FinancingDetails = FinancingDetails(
    totalValue: real,
    downPayment: real,
    interestRate: real,
    installments: nat)

  /** A consortium plan: `adminFee` is a percentage of the value. */
  datatype ConsortiumDetails = ConsortiumDetails(
    totalValue: real,
    adminFee: real,
    installments: nat)

  /** `Math.pow(b, n)` for a whole exponent `n`. */
  function Pow(b: real, n: nat): real
  {
    if n == 0 then 1.0 else b * Pow(b, n - 1)
  }

  /** The amount financed: what the down payment leaves of the price. */
  function Principal(d: FinancingDetails): real
  {
    d.totalValue - d.downPayment
  }

  /** The monthly rate as a fraction rather than a percentage. */
  function MonthlyRate(d: FinancingDetails): real
  {
    d.interestRate / 100.0
  }

  /**
    The annuity formula is reached only with a non-zero rate, a positive
    principal and at least one instalment; there its denominator
    `(1 + r)^n - 1` must not vanish (with exact numbers it vanishes only for
    r = -2 and an even n, where the source returns an infinity).
   */
  predicate AnnuityDefined(d: FinancingDetails)
  {
    (d.interestRate != 0.0 && Principal(d) > 0.0 && d.installments > 0) ==>
      Pow(1.0 + MonthlyRate(d), d.installments) != 1.0
  }

  /**
    The inputs for which the monthly payment is a finite number: the
    zero-rate branch divides by the instalment count, so it needs one.
   */
  predicate PaymentDefined(d: FinancingDetails)
  {
    (d.interestRate == 0.0 ==> d.installments > 0) && AnnuityDefined(d)
  }

  /** The Tabela Price instalment `p * r(1+r)^n / ((1+r)^n - 1)`. */
  function Annuity(p: real, r: real, n: nat): real
    requires Pow(1.0 + r, n) != 1.0
  {
    p * (r * Pow(1.0 + r, n)) / (Pow(1.0 + r, n) - 1.0)
  }

  /** calculateFinancingMonthlyPayment */
  function FinancingMonthlyPayment(d: FinancingDetails): (m: real)
    requires PaymentDefined(d)
    // without interest the instalments repay exactly the principal, whatever its sign
    ensures d.interestRate == 0.0 ==> m * d.installments as real == Principal(d)
    // with interest, nothing is owed when the down payment covers the price
    ensures d.interestRate != 0.0 && Principal(d) <= 0.0 ==> m == 0.0
    // with interest and no instalments, the principal is due at once
    ensures d.interestRate != 0.0 && Principal(d) > 0.0 && d.installments == 0 ==> m == Principal(d)
  {
    if d.interestRate == 0.0 then
      Principal(d) / d.installments as real
    else if Principal(d) <= 0.0 then
      0.0
    else if d.installments == 0 then
      Principal(d)
    else
      Annuity(Principal(d), MonthlyRate(d), d.installments)
  }

  /**
    calculateFinancingTotal. With zero interest and no instalments the
    source's monthly payment is `principal / 0`, an infinity; times zero
    instalments that is NaN, which the guard at the end turns into 0.
   */
  function FinancingTotal(d: FinancingDetails): (t: real)
    requires AnnuityDefined(d)
    ensures d.downPayment >= d.totalValue ==> t == d.totalValue
    ensures d.downPayment < d.totalValue && d.interestRate == 0.0 && d.installments > 0 ==> t == d.totalValue
    ensures d.downPayment < d.totalValue && d.interestRate == 0.0 && d.installments == 0 ==> t == 0.0
    ensures d.downPayment < d.totalValue && d.interestRate != 0.0 && d.installments == 0 ==> t == d.downPayment
    ensures d.downPayment < d.totalValue && d.interestRate != 0.0 && d.installments > 0 ==>
      t == d.downPayment + FinancingMonthlyPayment(d) * d.installments as real
  {
    if d.downPayment >= d.totalValue then
      d.totalValue
    else if d.interestRate == 0.0 && d.installments == 0 then
      0.0
    else
      d.downPayment + FinancingMonthlyPayment(d) * d.installments as real
  }

  /** calculateConsortiumTotal: the value plus `adminFee` percent of it; the instalment count plays no part. */
  function ConsortiumTotal(c: ConsortiumDetails): (t: real)
    ensures t - c.totalValue == c.totalValue * (c.adminFee / 100.0)
    ensures c.totalValue >= 0.0 && c.adminFee >= 0.0 ==> t >= c.totalValue
  {
    c.totalValue * (1.0 + c.adminFee / 100.0)
  }

  /** The consortium total does not depend on the number of instalments. */
  lemma ConsortiumTotalIgnoresInstallments(c: ConsortiumDetails, n: nat)
    ensures ConsortiumTotal(c.(installments := n)) == ConsortiumTotal(c)
  {
  }

  /** calculateConsortiumMonthlyPayment */
  function ConsortiumMonthlyPayment(c: ConsortiumDetails): (m: real)
    ensures c.installments == 0 ==> m == 0.0
    ensures c.installments > 0 ==> m * c.installments as real == ConsortiumTotal(c)
  {
    if c.installments == 0 then 0.0 else ConsortiumTotal(c) / c.installments as real
  }

  // ---------------------------------------------------------------------
  // The amortisation schedule: an independent account of what the
  // instalment is for.
  // ---------------------------------------------------------------------

  /**
    What is still owed on a loan of `p` at monthly rate `r` after `k`
    payments of `m`: each month interest accrues on the balance and then one
    payment is made.
   */
  function Balance(p: real, r: real, m: real, k: nat): real
  {
    if k == 0 then p else Balance(p, r, m, k - 1) * (1.0 + r) - m
  }

  /**
    The balance in closed form, scaled by the rate so that no division is
    needed: `r * B(k) - m` grows by the factor `1 + r` each month.
   */
  lemma {:induction false} BalanceClosedForm(p: real, r: real, m: real, k: nat)
    ensures Balance(p, r, m, k) * r - m == (p * r - m) * Pow(1.0 + r, k)
  {
    if k > 0 {
      BalanceClosedForm(p, r, m, k - 1);
      ClosedFormStep(p, r, m, k);
    }
  }

  /** One month of the schedule carries the closed form from `k - 1` to `k`. */
  lemma ClosedFormStep(p: real, r: real, m: real, k: nat)
    requires k > 0
    ensures Balance(p, r, m, k - 1) * r - m == (p * r - m) * Pow(1.0 + r, k - 1) ==>
      Balance(p, r, m, k) * r - m == (p * r - m) * Pow(1.0 + r, k)
  {
    assert Balance(p, r, m, k) * r - m == (1.0 + r) * (Balance(p, r, m, k - 1) * r - m);
    assert (p * r - m) * Pow(1.0 + r, k) == (1.0 + r) * ((p * r - m) * Pow(1.0 + r, k - 1));
  }

  /** Without interest, every payment reduces the balance by its full amount. */
  lemma {:induction false} BalanceWithoutInterest(p: real, m: real, k: nat)
    ensures Balance(p, 0.0, m, k) == p - k as real * m
  {
    if k > 0 {
      BalanceWithoutInterest(p, m, k - 1);
    }
  }

  /** With interest, a positive principal and some instalments, the payment is the annuity. */
  lemma PaymentIsAnnuity(d: FinancingDetails)
    requires PaymentDefined(d)
    requires d.interestRate != 0.0 && Principal(d) > 0.0 && d.installments > 0
    ensures FinancingMonthlyPayment(d) == Annuity(Principal(d), MonthlyRate(d), d.installments)
  {
  }

  /** The annuity times the formula's denominator is the numerator. */
  lemma AnnuityTimesDenominator(p: real, r: real, n: nat)
    requires Pow(1.0 + r, n) != 1.0
    ensures Annuity(p, r, n) * (Pow(1.0 + r, n) - 1.0) == p * (r * Pow(1.0 + r, n))
  {
    DivisionUndone(p * (r * Pow(1.0 + r, n)), Pow(1.0 + r, n) - 1.0, Annuity(p, r, n));
  }

  /** Division by a non-zero number is undone by multiplying back. */
  lemma DivisionUndone(x: real, y: real, q: real)
    requires y != 0.0
    ensures q * y == x <==> q == x / y
  {
  }

  /** A product with a non-zero factor vanishes only when the other factor does. */
  lemma CancelFactor(x: real, y: real, q: real)
    requires q != 0.0
    ensures x * q == y * q <==> x == y
  {
    assert x * q - y * q == (x - y) * q;
  }

  /** At a non-zero rate, the balance vanishes exactly when the scaled closed form does. */
  lemma ZeroBalance(p: real, r: real, x: real, n: nat)
    requires r != 0.0
    ensures Balance(p, r, x, n) == 0.0 <==> Balance(p, r, x, n) * r == 0.0
  {
    CancelFactor(Balance(p, r, x, n), 0.0, r);
  }

  /** The denominator of the annuity formula may be cancelled. */
  lemma CancelDenominator(p: real, r: real, n: nat, x: real)
    requires Pow(1.0 + r, n) != 1.0
    ensures x * (Pow(1.0 + r, n) - 1.0) == Annuity(p, r, n) * (Pow(1.0 + r, n) - 1.0) <==> x == Annuity(p, r, n)
  {
    CancelFactor(x, Annuity(p, r, n), Pow(1.0 + r, n) - 1.0);
  }

  /** The annuity is the one constant payment that leaves nothing owed after `n` months. */
  lemma AnnuityClearsLoan(p: real, r: real, n: nat, x: real)
    requires r != 0.0 && Pow(1.0 + r, n) != 1.0
    ensures Balance(p, r, x, n) == 0.0 <==> x == Annuity(p, r, n)
  {
    AnnuityTimesDenominator(p, r, n);
    BalanceClosedForm(p, r, x, n);
    ZeroBalance(p, r, x, n);
    CancelDenominator(p, r, n, x);
  }

  /** Without interest, `n` equal payments clear the loan exactly when each is `p / n`. */
  lemma ZeroRateClearsLoan(p: real, x: real, n: nat)
    requires n > 0
    ensures Balance(p, 0.0, x, n) == 0.0 <==> x == p / n as real
  {
    BalanceWithoutInterest(p, x, n);
    DivisionUndone(p, n as real, x);
  }

  /**
    The monthly payment clears the loan: after `installments` payments of it
    nothing is owed, in the zero-rate branch and in the annuity branch alike;
    and it is the only constant payment that does so.
   */
  lemma PaymentClearsLoan(d: FinancingDetails, x: real)
    requires PaymentDefined(d) && d.installments > 0
    requires d.interestRate == 0.0 || Principal(d) > 0.0
    ensures Balance(Principal(d), MonthlyRate(d), x, d.installments) == 0.0 <==> x == FinancingMonthlyPayment(d)
  {
    if d.interestRate == 0.0 {
      ZeroRateClearsLoan(Principal(d), x, d.installments);
    } else {
      PaymentIsAnnuity(d);
      AnnuityClearsLoan(Principal(d), MonthlyRate(d), d.installments, x);
    }
  }

  // ---------------------------------------------------------------------
  // Interest never makes the loan cheaper.
  // ---------------------------------------------------------------------

  lemma {:induction false} PowAtLeastOne(r: real, n: nat)
    requires r >= 0.0
    ensures Pow(1.0 + r, n) >= 1.0
  {
    if n > 0 {
      PowAtLeastOne(r, n - 1);
      assert (1.0 + r) * Pow(1.0 + r, n - 1) >= 1.0 * Pow(1.0 + r, n - 1);
    }
  }

  /** A positive rate compounds to a growth factor above one. */
  lemma GrowthAboveOne(r: real, n: nat)
    requires r > 0.0 && n > 0
    ensures Pow(1.0 + r, n) > 1.0
  {
    PowAtLeastOne(r, n - 1);
    assert (1.0 + r) * Pow(1.0 + r, n - 1) >= (1.0 + r) * 1.0;
  }

  /** `Math.pow`'s exponent law: compounding for `m` and then `n` months is compounding for `m + n`. */
  lemma {:induction false} PowAdd(b: real, m: nat, n: nat)
    ensures Pow(b, m + n) == Pow(b, m) * Pow(b, n)
  {
    if m > 0 {
      PowAdd(b, m - 1, n);
      assert Pow(b, m + n) == b * Pow(b, (m - 1) + n);
    }
  }

  /** A payment `a` with `a * (q - 1) == x * (r * q)`, for `x > 0`, `r > 0` and `q > 1`, exceeds `x * r`. */
  lemma RatioAboveOne(x: real, r: real, q: real, a: real)
    requires x > 0.0 && r > 0.0 && q > 1.0
    requires a * (q - 1.0) == x * (r * q)
    ensures a > x * r
  {
    var y := x * r;
    assert x * (r * q) == y * q;
    var d := q - 1.0;
    assert y * q == y * d + y;
    assert (a - y) * d == a * d - y * d;
    DivisionUndone(y, d, a - y);
    assert y / d > 0.0;
  }

  /**
    On a positive loan at a positive rate, the Tabela Price instalment is more
    than the first month's interest, so every instalment repays some principal.
   */
  lemma AnnuityExceedsInterest(p: real, r: real, n: nat)
    requires p > 0.0 && r > 0.0 && n > 0
    ensures Pow(1.0 + r, n) != 1.0
    ensures Annuity(p, r, n) > p * r
  {
    GrowthAboveOne(r, n);
    AnnuityTimesDenominator(p, r, n);
    var q, a := Pow(1.0 + r, n), Annuity(p, r, n);
    RatioAboveOne(p, r, q, a);
  }

  /** A product of a negative and a positive number is negative. */
  lemma NegativeTimesPositive(x: real, y: real)
    requires x < 0.0 && y > 0.0
    ensures x * y < 0.0
  {
  }

  /**
    On a positive loan at a positive rate, every Tabela Price instalment is
    more than the interest accrued on the balance it is paid against, so each
    one repays some principal.
   */
  lemma AnnuityRepaysEveryMonth(p: real, r: real, n: nat, k: nat)
    requires p > 0.0 && r > 0.0 && n > 0
    ensures Pow(1.0 + r, n) != 1.0
    ensures Balance(p, r, Annuity(p, r, n), k) * r < Annuity(p, r, n)
  {
    AnnuityExceedsInterest(p, r, n);
    var a := Annuity(p, r, n);
    BalanceClosedForm(p, r, a, k);
    PowAtLeastOne(r, k);
    var g := Pow(1.0 + r, k);
    NegativeTimesPositive(p * r - a, g);
  }

  /**
    While the payments made so far do not exceed the principal, interest at a
    rate of at least zero keeps the balance at or above what plain subtraction
    would leave, and strictly above it once a positive rate has been applied.
   */
  lemma {:induction false} BalanceStaysAbove(p: real, r: real, m: real, k: nat)
    requires p > 0.0 && r >= 0.0
    ensures m * k as real <= p ==> Balance(p, r, m, k) >= p - m * k as real
    ensures m * k as real <= p && r > 0.0 && k > 0 ==> Balance(p, r, m, k) > p - m * k as real
  {
    if k > 0 && m * k as real <= p {
      assert m * (k - 1) as real == m * k as real - m;
      BalanceStaysAbove(p, r, m, k - 1);
      assert Balance(p, r, m, k - 1) > 0.0;
      assert Balance(p, r, m, k - 1) * (1.0 + r) >= Balance(p, r, m, k - 1) * 1.0;
      if r > 0.0 {
        assert Balance(p, r, m, k - 1) * (1.0 + r) > Balance(p, r, m, k - 1) * 1.0;
      }
    }
  }

  /**
    A constant payment that clears a positive principal at a rate of at
    least zero is positive and adds up to at least the principal; to more
    than it when the rate is positive.
   */
  lemma ClearingPaymentRepays(p: real, r: real, x: real, n: nat)
    requires p > 0.0 && r >= 0.0 && n > 0
    requires Balance(p, r, x, n) == 0.0
    ensures x * n as real >= p && x > 0.0
    ensures r > 0.0 ==> x * n as real > p
  {
    BalanceStaysAbove(p, r, x, n);
  }

  /**
    With a rate of at least zero the payment is defined and positive, and the
    instalments together repay at least the principal; strictly more when
    the rate is positive.
   */
  lemma PaymentRepaysPrincipal(d: FinancingDetails)
    requires d.interestRate >= 0.0 && Principal(d) > 0.0 && d.installments > 0
    ensures PaymentDefined(d)
    ensures FinancingMonthlyPayment(d) > 0.0
    ensures FinancingMonthlyPayment(d) * d.installments as real >= Principal(d)
    ensures d.interestRate > 0.0 ==> FinancingMonthlyPayment(d) * d.installments as real > Principal(d)
  {
    ValidatedInputIsDefined(d);
    PaymentClearsLoan(d, FinancingMonthlyPayment(d));
    ClearingPaymentRepays(Principal(d), MonthlyRate(d), FinancingMonthlyPayment(d), d.installments);
  }

  /**
    Input the financing form lets through (rate at least 0, at least one
    instalment) always gives a finite payment and total.
   */
  lemma ValidatedInputIsDefined(d: FinancingDetails)
    requires d.interestRate >= 0.0 && d.installments >= 1
    ensures PaymentDefined(d) && AnnuityDefined(d)
  {
    if d.interestRate > 0.0 {
      GrowthAboveOne(MonthlyRate(d), d.installments);
    }
  }

  /**
    For input the financing form lets through, a financed purchase costs at
    least its price, and more than it when interest is charged on a
    positive principal.
   */
  lemma FinancingCostsAtLeastPrice(d: FinancingDetails)
    requires d.interestRate >= 0.0 && d.installments > 0
    ensures AnnuityDefined(d)
    ensures FinancingTotal(d) >= d.totalValue
    ensures d.interestRate > 0.0 && d.downPayment < d.totalValue ==> FinancingTotal(d) > d.totalValue
  {
    ValidatedInputIsDefined(d);
    if d.downPayment < d.totalValue {
      PaymentRepaysPrincipal(d);
    }
  }
}
