TestResult.DisplayName,TestResult.Outcome,TestResult.Duration,TestResult.ResourceCount,RandomSeed
Scenarios.E1Totals (correctness),Passed,00:00:00.5756019,1626319,10
Scenarios.E2Totals (correctness),Passed,00:00:00.3350347,619724,10
Valuation.AccountTotalsIsTheLoop (correctness),Passed,00:00:00.3325769,277754,10
Scenarios.E3Totals (correctness),Passed,00:00:00.3237437,527009,10
Valuation.AccountTotalsAppend (correctness),Passed,00:00:00.2526270,423392,10
Scenarios.TotalsOfOne (well-formedness),Passed,00:00:00.2517963,67778,10
Scenarios.TotalsUnfold (correctness),Passed,00:00:00.2448224,79579,10
Scenarios.TotalsUnfold (well-formedness),Passed,00:00:00.2237204,72021,10
Valuation.AccountTotalsIsTheLoop (well-formedness),Passed,00:00:00.2179951,74769,10
Valuation.AccountTotals (well-formedness),Passed,00:00:00.1851208,200348,10
Scenarios.E4Totals (correctness),Passed,00:00:00.1807100,261712,10
Scenarios.TotalsOfThree (correctness),Passed,00:00:00.1163688,92566,10
Scenarios.AccountValueFromTotals (well-formedness),Passed,00:00:00.1141893,87053,10
Valuation.LoopTotals (well-formedness),Passed,00:00:00.1136067,72439,10
Valuation.LoopFromZeroIsAccountTotals (correctness),Passed,00:00:00.1071955,93011,10
Scenarios.TotalsOfOne (correctness),Passed,00:00:00.1044564,87368,10
Scenarios.TotalsOfThree (well-formedness),Passed,00:00:00.1020047,75790,10
Scenarios.AccountValueFromTotals (correctness),Passed,00:00:00.1009123,104444,10
Scenarios.E1Totals (well-formedness),Passed,00:00:00.0973297,101862,10
Scenarios.TotalsOfTwo (correctness),Passed,00:00:00.0921477,86043,10
Scenarios.TotalsOfTwo (well-formedness),Passed,00:00:00.0861911,72144,10
Valuation.AccountTotalsAppend (well-formedness),Passed,00:00:00.0746060,71603,10
