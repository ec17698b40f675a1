TestResult.DisplayName,TestResult.Outcome,TestResult.Duration,TestResult.ResourceCount,RandomSeed
Scenarios.E1Totals (correctness),Failed,00:00:00.6668287,2092364,7
Scenarios.E2Totals (correctness),Passed,00:00:00.3201825,511730,7
Scenarios.E3Totals (correctness),Passed,00:00:00.2916847,471230,7
Valuation.AccountTotalsAppend (correctness),Passed,00:00:00.2763527,420852,7
Valuation.AccountTotalsIsTheLoop (well-formedness),Passed,00:00:00.2638669,74766,7
Scenarios.TotalsOfOne (well-formedness),Passed,00:00:00.2555675,67772,7
Scenarios.E4Totals (correctness),Passed,00:00:00.2493898,329626,7
Scenarios.TotalsUnfold (well-formedness),Passed,00:00:00.2394552,72004,7
Scenarios.TotalsUnfold (correctness),Passed,00:00:00.2108932,86941,7
Scenarios.E1Totals (well-formedness),Passed,00:00:00.1927616,101912,7
Valuation.AccountTotalsIsTheLoop (correctness),Passed,00:00:00.1830735,266085,7
Valuation.AccountTotals (well-formedness),Passed,00:00:00.1770617,194489,7
Scenarios.TotalsOfOne (correctness),Passed,00:00:00.1237821,91730,7
Scenarios.AccountValueFromTotals (well-formedness),Passed,00:00:00.1218737,87047,7
Scenarios.TotalsOfThree (well-formedness),Passed,00:00:00.1091726,75759,7
Valuation.LoopFromZeroIsAccountTotals (correctness),Passed,00:00:00.1043577,93016,7
Scenarios.AccountValueFromTotals (correctness),Passed,00:00:00.0979336,104460,7
Scenarios.TotalsOfThree (correctness),Passed,00:00:00.0959208,92508,7
Valuation.AccountTotalsAppend (well-formedness),Passed,00:00:00.0950366,71624,7
Scenarios.TotalsOfTwo (well-formedness),Passed,00:00:00.0891438,72134,7
Valuation.LoopTotals (well-formedness),Passed,00:00:00.0888769,70539,7
Scenarios.TotalsOfTwo (correctness),Passed,00:00:00.0832150,85984,7
