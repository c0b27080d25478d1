# Financing, consortium and weighted-score calculations in Dafny

This project models the deterministic calculations of a decision-support
web application (`src/lib/financial-calculations.ts`). There are two
independent, stateless components.

- **Amortisation calculator** (module `Amortization`, file `amortization.dfy`).
  - It computes the monthly payment and total cost of a financing plan: a loan
    of `totalValue - downPayment`, repaid in `installments` fixed payments under
    the "Tabela Price" annuity at a monthly `interestRate` percent.
  - It also computes the monthly payment and total cost of a consortium plan:
    the value plus a flat `adminFee` percent, spread over equal instalments.
  - Every guard clause of the source is a branch of the model.
  - The annuity formula has a partner, the month-by-month balance of the loan
    (`Balance`). The model proves that the payment clears that balance after the
    last instalment, and that it is the only constant payment that does.
  - The model also proves that, for non-negative rates and at least one
    instalment, financing never costs less than the price, and costs strictly
    more when interest is charged and the down payment is below the price.
    With no instalments this does not hold: at a non-zero rate the total is
    then the down payment alone, as the source's tests expect.
- **Weighted score ranker** (module `WeightedScores`, file `weighted_scores.dfy`).
  - Each named option gets the sum, over the criteria that count (a non-empty
    name and a non-zero weight), of its score on the criterion times the
    weight as a fraction of 100. A missing score counts as 0.
  - Unnamed options are dropped, and the rest are sorted by descending score.
    `Array.prototype.sort` is stable, so equal scores keep their input order.
  - The source's `map`/`reduce`/`filter`/`sort` pipeline is modelled step by
    step: a left fold, a filter, and an insertion sort.
  - Each step is tied to an independent reference:
    - `Expected`: the named options' lines, computed in one pass;
    - `WeightedSum`: the plain sum;
    - `WithScore`: the per-score subsequence, which states stability.
  - The ranking is proved to be:
    - a permutation of the expected lines;
    - sorted by non-increasing score;
    - stable;
    - exactly one line per named option, and no line without a name.

The unit tests' cases are proved, for exact arithmetic, as lemmas in the
modules `AmortizationExamples` and `WeightedScoresExamples`. For the 1.5%
financing plan the tests expect figures that the code does not produce (see
"## Findings").

Numbers are modelled as exact `real`, and the instalment count as `nat`.
`Math.pow` with a whole exponent becomes the recursive `Pow`. The JavaScript
`null` that `calculateWeightedScores` guards against is `Nullable.Null`. An
empty array is `Present([])` and stays distinct from `Null`, as it does in
the source.

Two behaviours of the code are worth stating because a reader might expect
otherwise:

- `!criteria` at financial-calculations.ts:67 is false for an empty array.
  The test at financial-calculations.test.ts:118-123 passes `criteria: []`
  only together with `options: null`, so it is the absent options that give
  `[]` there. With present options, an empty criteria list ranks every named
  option with score 0, in input order (`NoCriteriaKeepsInputOrder`).
- The comparator at financial-calculations.ts:82 has no tie-break key.
  `Array.prototype.sort` is stable (ECMA-262, section 23.1.3.30, since the
  2019 edition), so options with equal scores keep their input order, and the
  model proves stability.

## Model

| member | source | states |
|---|---|---|
| Amortization.FinancingMonthlyPayment | src/lib/financial-calculations.ts:29-42 | Zero rate: payment times instalments is exactly the principal, whatever its sign. Non-zero rate and principal ≤ 0: payment is 0. Non-zero rate, positive principal and no instalments: the whole principal. Requires only what keeps the result finite. |
| Amortization.FinancingTotal | src/lib/financial-calculations.ts:44-51 | Down payment ≥ price: the price. Zero rate with instalments: exactly the price. Zero rate without instalments: 0 (the NaN guard). Non-zero rate without instalments: the down payment. Otherwise: down payment plus payment times instalments. |
| Amortization.ConsortiumTotal | src/lib/financial-calculations.ts:53-56 | Exceeds the value by exactly `adminFee` percent of it, and is at least the value for non-negative value and fee. |
| Amortization.ConsortiumTotalIgnoresInstallments | src/lib/financial-calculations.ts:53-56 | The consortium total does not depend on the instalment count. |
| Amortization.ConsortiumMonthlyPayment | src/lib/financial-calculations.ts:58-63 | 0 without instalments; otherwise payment times instalments is exactly the consortium total. |
| Amortization.BalanceClosedForm | src/lib/financial-calculations.ts:38-40 | The balance recurrence has the closed form `B(k)·r − m = (p·r − m)(1+r)^k` on which the Tabela Price formula rests. |
| Amortization.BalanceWithoutInterest | src/lib/financial-calculations.ts:30-32 | At zero rate the balance after `k` payments of `m` is `p − k·m`. |
| Amortization.AnnuityClearsLoan | src/lib/financial-calculations.ts:40 | For a non-zero rate, a constant payment clears the loan after `n` months if and only if it equals the annuity formula. |
| Amortization.ZeroRateClearsLoan | src/lib/financial-calculations.ts:30-32 | At zero rate, a constant payment clears the loan if and only if it is the principal divided by the instalment count. |
| Amortization.PaymentClearsLoan | src/lib/financial-calculations.ts:29-42 | Whenever the formula branches are reached, a constant payment clears the loan after the last instalment if and only if it equals `FinancingMonthlyPayment`. |
| Amortization.PowAdd | src/lib/financial-calculations.ts:40 | `Pow`, the model of `Math.pow` with a whole exponent, obeys the exponent law `b^(m+n) = b^m · b^n` (used to compute `1.015^48` by repeated squaring for the 1.5% plan). |
| Amortization.PowAtLeastOne | src/lib/financial-calculations.ts:40 | `(1+r)^n ≥ 1` for a non-negative rate. |
| Amortization.AnnuityExceedsInterest | src/lib/financial-calculations.ts:40 | `Annuity`, the formula at line 40, is defined for a positive loan, rate and instalment count, and the instalment it gives exceeds the first month's interest `p·r`, so the first instalment repays some principal. |
| Amortization.AnnuityRepaysEveryMonth | src/lib/financial-calculations.ts:40 | On a positive loan at a positive rate, after any number `k` of Tabela Price instalments the interest on the remaining balance, `B(k)·r`, is less than the instalment, so every instalment repays some principal. |
| Amortization.GrowthAboveOne | src/lib/financial-calculations.ts:40 | `(1+r)^n > 1` for a positive rate and at least one instalment, so the formula's denominator is positive. |
| Amortization.BalanceStaysAbove | src/lib/financial-calculations.ts:40 | For a positive loan at a non-negative rate, while the payments made do not exceed the principal, the balance never falls below the principal minus what was paid, and stays strictly above it once a positive rate has been applied. |
| Amortization.ClearingPaymentRepays | src/lib/financial-calculations.ts:40 | At a non-negative rate, a constant payment that clears a positive loan in at least one month is positive and repays at least the principal, strictly more with a positive rate. |
| Amortization.PaymentRepaysPrincipal | src/lib/financial-calculations.ts:29-42 | For a non-negative rate, a positive principal and instalments, the payment is positive and the instalments add up to at least the principal, strictly more when interest is charged. |
| Amortization.ValidatedInputIsDefined | src/components/decision/financial-spending-form.tsx:24-27 | Input the financing form accepts (rate ≥ 0, at least one instalment) always gives a finite payment and total. |
| Amortization.FinancingCostsAtLeastPrice | src/lib/financial-calculations.ts:44-51 | For a rate ≥ 0 and instalments, financing costs at least the price, and strictly more with interest on a positive principal. |
| AmortizationExamples.ZeroInterestExample | src/lib/financial-calculations.test.ts:32-38 | 50000 with 10000 down at 0% over 48 months: payment 40000/48, total exactly 50000. |
| AmortizationExamples.ZeroInstallmentsExample | src/lib/financial-calculations.test.ts:40-46 | The same plan at 1.5% with 0 instalments: payment 40000, total 10000. |
| AmortizationExamples.PriceExample | src/lib/financial-calculations.test.ts:20-30 | For the tests' plan (50000, 10000 down, 1.5% a month, 48 months) the code's payment lies between 1174.9999 and 1175.00 and its total between 66399.99 and 66400.00, and that payment clears the loan. |
| AmortizationExamples.TestFiguresMissPayment | src/lib/financial-calculations.test.ts:20-30 | For the same plan, the code's payment is more than 0.005 below the tests' 1178.10 and its total more than 0.005 below their 66548.80, so `toBeCloseTo(…, 2)` rejects both; a payment of 1178.10 does not clear the loan. |
| AmortizationExamples.ConsortiumExample | src/lib/financial-calculations.test.ts:56-72 | With exact arithmetic, 50000 at a 15% fee: total exactly 57500; over 60 months the instalments add up to 57500; with 0 instalments the payment is 0. |
| WeightedScores.MissingScoreIsZero | src/lib/financial-calculations.ts:74 | A criterion missing from an option's scores gives the same weighted score as an explicit score of 0 for it. |
| WeightedScores.Reduce | src/lib/financial-calculations.ts:72-77 | `criteria.reduce` with the callback `Step` (which skips criteria with an empty name or a zero weight), started from a value, adds to it the plain weighted sum over all criteria. |
| WeightedScores.RankOption | src/lib/financial-calculations.ts:69-80 | An unnamed option gives a blank line scoring 0; a named one keeps its name and scores the weighted sum. |
| WeightedScores.Counted | src/lib/financial-calculations.ts:73 | Exactly the criteria with a non-empty name and a non-zero weight. |
| WeightedScores.SkippedCriteriaDoNotMatter | src/lib/financial-calculations.ts:73 | Criteria with an empty name or a zero weight make no difference to any score. |
| WeightedScores.ContributionBounds | src/lib/financial-calculations.ts:73-76 | One criterion adds between 0 and 10 times its weight percentage, for form-valid weights and scores. |
| WeightedScores.ScoreBounds | src/components/decision/weighted-analysis-form.tsx:24-30 | For the weights (≥ 0) and scores (0 to 10) the form admits, a score lies between 0 and 10 times the total counted weight percentage. |
| WeightedScores.RankAll | src/lib/financial-calculations.ts:69-80 | One line per option, in order, each the option's `RankOption` line. |
| WeightedScores.KeepNamed | src/lib/financial-calculations.ts:81 | A line is kept exactly when it is in the input and has a name. |
| WeightedScores.NamedOptions | src/lib/financial-calculations.ts:81 | An option is kept exactly when it is in the input and has a name. |
| WeightedScores.NamedOptionsAppend | src/lib/financial-calculations.ts:81 | Keeping the named options distributes over concatenation. |
| WeightedScores.Expected | src/lib/financial-calculations.ts:69-81 | The reference lines: one per named option, each the option's name with its weighted sum, and nothing else. |
| WeightedScores.KeepNamedAfterRanking | src/lib/financial-calculations.ts:69-81 | Mapping every option and then filtering the unnamed lines gives exactly the reference lines. |
| WeightedScores.Insert | src/lib/financial-calculations.ts:82 | Inserting adds one line, at the front or behind the first line. |
| WeightedScores.InsertPermutes | src/lib/financial-calculations.ts:82 | Inserting adds the line and loses nothing (multisets). |
| WeightedScores.InsertSorted | src/lib/financial-calculations.ts:82 | Inserting into a descending sequence keeps it descending. |
| WeightedScores.SortDesc | src/lib/financial-calculations.ts:82 | The sort keeps the number of lines. |
| WeightedScores.SortDescPermutes | src/lib/financial-calculations.ts:82 | The sort's result is a permutation of its input. |
| WeightedScores.SortDescSorted | src/lib/financial-calculations.ts:82 | The sort's result has non-increasing scores. |
| WeightedScores.InsertKeepsTies | src/lib/financial-calculations.ts:82 | An inserted line lands ahead of every line that shares its score. |
| WeightedScores.SortDescIsStable | src/lib/financial-calculations.ts:82 | For every score, the lines with that score come out in the order they went in. |
| WeightedScores.CalculateWeightedScores | src/lib/financial-calculations.ts:66-83 | An absent list on either side gives `[]`. Otherwise the result is a permutation of the reference lines, sorted by non-increasing score, and stable. |
| WeightedScores.RankingLinesComeFromOptions | src/lib/financial-calculations.ts:69-82 | Every line of the ranking has a name and is some option's name with its weighted sum. |
| WeightedScores.RankingCoversNamedOptions | src/lib/financial-calculations.ts:69-82 | Every named option appears in the ranking with its weighted sum. |
| WeightedScores.RankingLength | src/lib/financial-calculations.ts:69-82 | The ranking has exactly one line per named option. |
| WeightedScores.FirstIsBest | src/lib/financial-calculations.ts:82 | With at least one named option, the first line scores at least as much as every named option. |
| WeightedScores.NoCriteriaKeepsInputOrder | src/lib/financial-calculations.ts:67 | A present but empty criteria list ranks every named option at 0, in input order; it does not give `[]`. |
| WeightedScoresExamples.TestOptionScores | src/lib/financial-calculations.test.ts:87-106 | The worked example's options score exactly 8.4, 8.0 and 8.1. |
| WeightedScoresExamples.SortThree | src/lib/financial-calculations.ts:82 | Three lines where the last outscores the middle and the first scores at least as much as the last sort as first, last, middle. |
| WeightedScoresExamples.RankingExample | src/lib/financial-calculations.test.ts:87-106 | A=8.4, B=8.0, C=8.1 rank as [A, C, B]. |
| WeightedScoresExamples.MissingScoreExample | src/lib/financial-calculations.test.ts:108-116 | An option without a "Prazo" score ranks with exactly 6.5. |
| WeightedScoresExamples.UnnamedOptionExample | src/lib/financial-calculations.test.ts:125-132 | An unnamed fourth option is left out: three lines. |
| WeightedScoresExamples.AbsentListExample | src/lib/financial-calculations.test.ts:118-123 | `criteria: []` with `options: null`, and `criteria: null` with `options: []`, both give `[]`. |

## Left out

- The `isNaN(...) ? 0 : ...` guards (financial-calculations.ts:41, 50, 55, 62) are IEEE-754 behaviour, and with exact reals they are vacuous. The one exception is a zero rate with no instalments in the financing total, where an infinite payment times 0 gives NaN and the guard gives 0; `FinancingTotal` models that case as 0.
- Amortization.FinancingMonthlyPayment: requires `PaymentDefined`. This excludes a zero rate with zero instalments, where line 31 returns `principal / 0` before the guard at line 41: +Infinity, −Infinity, or NaN when the down payment equals the price, and a rate of −200% with an even instalment count, where the formula divides by zero. `FinancingTotal` requires `AnnuityDefined`, which excludes only the second case.
- Floating-point overflow of `Math.pow` is not modelled. With a very large instalment count, line 40 computes Infinity/Infinity and the guard at line 41 returns 0; with exact reals the formula stays finite.
- Fractional and negative instalment counts are not modelled: `installments` is a `nat`, and `Math.pow` is taken only with whole exponents.
- The consortium test compares the payment with 958.33 using `toBeCloseTo`. That is a rounding of 57500/60, which the model states exactly as `payment · 60 == 57500`; the rounded decimal is not proved. The 1.5% financing figures of the tests are not roundings of the code's results (see "## Findings").
- IEEE-754 rounding of `+`, `*` and `/` is not modelled: every result is the exact real value. This changes an observable result in the consortium test at financial-calculations.test.ts:56-59. In doubles `50000 * (1 + 15 / 100)` is 57499.99999999999, so `toBe(57500)` does not hold for the code as written, whereas `ConsortiumExample` proves exactly 57500 for the exact model.
- `|| 0` at financial-calculations.ts:74 also maps a NaN score to 0. Scores are a `map<string, real>`, so only a missing key is modelled. Keys inherited from `Object.prototype` are not modelled either.
- The form rule that weights sum to about 100 is enforced only by a zod refinement with a float tolerance, not by the ranker. `ScoreBounds` states its bound in terms of the total weight instead.
- The `FinancialTotals` record type is only a container for two results that no core function builds, so it has no counterpart.
- The generative-AI flows, server actions, the decision-history hook (React state and `localStorage`), the UI components and the tests are outside the calculations modelled here.

## Findings

| source | as written | input that shows it | evidently intended | confidence | as-written member | corrected member |
|---|---|---|---|---|---|---|
| src/lib/financial-calculations.test.ts:20-30 | The tests expect a monthly payment of 1178.10 and a total of 66548.80, both to two decimals, for the plan they define. | totalValue 50000, downPayment 10000, interestRate 1.5, installments 48: the formula at financial-calculations.ts:40 gives 1174.99998… and the total 66399.9992…, off by about 3.10 and 148.80. | The expected figures are the Tabela Price instalment the code computes, 1175.00, and the total 66400.00. That instalment is the one that clears the loan in 48 payments. | high for exact arithmetic; not executed | AmortizationExamples.TestFiguresMissPayment | AmortizationExamples.PriceExample |
