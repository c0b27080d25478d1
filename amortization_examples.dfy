/** The unit tests' exact cases for the financing and consortium calculations. */
module AmortizationExamples {
  import A = Amortization


  lemma ZeroInterestExample()
    ensures A.FinancingMonthlyPayment(A.FinancingDetails(50000.0, 10000.0, 0.0, 48)) == 40000.0 / 48.0
    ensures A.FinancingTotal(A.FinancingDetails(50000.0, 10000.0, 0.0, 48)) == 50000.0
  {
  }

  lemma ZeroInstallmentsExample()
    ensures A.FinancingMonthlyPayment(A.FinancingDetails(50000.0, 10000.0, 1.5, 0)) == 40000.0
    ensures A.FinancingTotal(A.FinancingDetails(50000.0, 10000.0, 1.5, 0)) == 10000.0
  {
  }

  lemma ConsortiumExample()
    ensures A.ConsortiumTotal(A.ConsortiumDetails(50000.0, 15.0, 60)) == 57500.0
    ensures A.ConsortiumMonthlyPayment(A.ConsortiumDetails(50000.0, 15.0, 60)) * 60.0 == 57500.0
    ensures A.ConsortiumMonthlyPayment(A.ConsortiumDetails(50000.0, 15.0, 0)) == 0.0
  {
  }

  /** The tests' financing plan at 1.5% a month over 48 months. */
  function PriceDetails(): A.FinancingDetails
  {
    A.FinancingDetails(50000.0, 10000.0, 1.5, 48)
  }

  /** `1.015^48` by repeated squaring, with the exponent law. */
  lemma PriceGrowth()
    ensures A.Pow(1.015, 48) == 2.043478289312989728215367544047173697985604689340633635452419592020946651457708727354884343723519374389543296505422631526016630232334136962890625
  {
    var b := 1.015;
    assert A.Pow(b, 2) == 1.030225;
    A.PowAdd(b, 2, 2);
    assert A.Pow(b, 4) == 1.061363550625;
    A.PowAdd(b, 4, 4);
    assert A.Pow(b, 8) == 1.126492586595306937890625;
    A.PowAdd(b, 8, 8);
    assert A.Pow(b, 16) == 1.268985547654185100210693433113212451324462890625;
    A.PowAdd(b, 16, 16);
    assert A.Pow(b, 32) == 1.610324320155192083888191388274630640207780951820843099918219400748663410567678511142730712890625;
    A.PowAdd(b, 32, 16);
  }

  /**
    The code's instalment for the tests' 1.5% plan is 1175.00 to the cent and
    its total 66400.00 to the cent; that instalment clears the loan.
   */
  lemma PriceExample()
    ensures A.PaymentDefined(PriceDetails())
    ensures 1174.9999 < A.FinancingMonthlyPayment(PriceDetails()) < 1175.0
    ensures 66399.99 < A.FinancingTotal(PriceDetails()) < 66400.0
    ensures A.Balance(40000.0, 0.015, A.FinancingMonthlyPayment(PriceDetails()), 48) == 0.0
  {
    var d := PriceDetails();
    A.ValidatedInputIsDefined(d);
    assert A.MonthlyRate(d) == 0.015 && A.Principal(d) == 40000.0;
    PriceGrowth();
    A.PaymentIsAnnuity(d);
    A.PaymentClearsLoan(d, A.FinancingMonthlyPayment(d));
  }

  /**
    The tests expect 1178.10 a month and 66548.80 in total for the same plan.
    Both are further from the code's results than the two decimals of
    `toBeCloseTo` allow (less than 0.005 apart), and 1178.10 a month does not
    clear the loan.
   */
  lemma TestFiguresMissPayment()
    ensures A.PaymentDefined(PriceDetails())
    ensures A.FinancingMonthlyPayment(PriceDetails()) < 1178.10 - 0.005
    ensures A.FinancingTotal(PriceDetails()) < 66548.80 - 0.005
    ensures A.Balance(40000.0, 0.015, 1178.10, 48) != 0.0
  {
    PriceExample();
    A.PaymentClearsLoan(PriceDetails(), 1178.10);
  }
}
