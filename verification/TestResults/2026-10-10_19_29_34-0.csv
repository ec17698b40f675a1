TestResult.DisplayName,TestResult.Outcome,TestResult.Duration,TestResult.ResourceCount,RandomSeed
Scenarios.E1Totals (correctness),Failed,00:00:00.8832182,2092288,5
Scenarios.E2Totals (correctness),Passed,00:00:00.2696826,440776,5
Valuation.AccountTotalsAppend (correctness),Passed,00:00:00.2675123,423752,5
Valuation.AccountTotals (well-formedness),Passed,00:00:00.2517205,198786,5
Scenarios.E4Totals (correctness),Passed,00:00:00.2369874,408647,5
Scenarios.TotalsOfOne (well-formedness),Passed,00:00:00.2033458,67777,5
Scenarios.E3Totals (correctness),Passed,00:00:00.2025423,429286,5
Valuation.AccountTotalsIsTheLoop (well-formedness),Passed,00:00:00.1843310,74766,5
Scenarios.TotalsUnfold (correctness),Passed,00:00:00.1752781,86962,5
Scenarios.TotalsUnfold (well-formedness),Passed,00:00:00.1748781,72001,5
Valuation.AccountTotalsIsTheLoop (correctness),Passed,00:00:00.1421632,244393,5
Scenarios.AccountValueFromTotals (well-formedness),Passed,00:00:00.1255590,87049,5
Scenarios.AccountValueFromTotals (correctness),Passed,00:00:00.1118409,104498,5
Scenarios.E1Totals (well-formedness),Passed,00:00:00.1035436,100978,5
Scenarios.TotalsOfThree (correctness),Passed,00:00:00.0967900,92431,5
Scenarios.TotalsOfThree (well-formedness),Passed,00:00:00.0966452,75811,5
Scenarios.TotalsOfOne (correctness),Passed,00:00:00.0922598,91780,5
Scenarios.TotalsOfTwo (correctness),Passed,00:00:00.0819935,85903,5
Scenarios.TotalsOfTwo (well-formedness),Passed,00:00:00.0665873,72152,5
Valuation.LoopFromZeroIsAccountTotals (correctness),Passed,00:00:00.0573456,93036,5
Valuation.AccountTotalsAppend (well-formedness),Passed,00:00:00.0552194,71751,5
Valuation.LoopTotals (well-formedness),Passed,00:00:00.0546036,70196,5
