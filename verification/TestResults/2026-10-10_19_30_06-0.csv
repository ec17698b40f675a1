TestResult.DisplayName,TestResult.Outcome,TestResult.Duration,TestResult.ResourceCount,RandomSeed
Scenarios.E1Totals (correctness),Failed,00:00:00.7428654,2092264,9
Scenarios.E3Totals (correctness),Passed,00:00:00.4535708,474160,9
Scenarios.E2Totals (correctness),Passed,00:00:00.3693834,604699,9
Scenarios.TotalsOfOne (well-formedness),Passed,00:00:00.2415150,67758,9
Valuation.AccountTotalsAppend (correctness),Passed,00:00:00.2275509,383430,9
Scenarios.TotalsUnfold (well-formedness),Passed,00:00:00.2244688,72058,9
Valuation.AccountTotalsIsTheLoop (well-formedness),Passed,00:00:00.2198736,74761,9
Scenarios.TotalsUnfold (correctness),Passed,00:00:00.1962925,85937,9
Scenarios.E4Totals (correctness),Passed,00:00:00.1923957,262087,9
Scenarios.TotalsOfThree (well-formedness),Passed,00:00:00.1801944,75878,9
Valuation.AccountTotalsIsTheLoop (correctness),Passed,00:00:00.1748876,265729,9
Scenarios.TotalsOfThree (correctness),Passed,00:00:00.1699735,92413,9
Valuation.AccountTotals (well-formedness),Passed,00:00:00.1394063,194614,9
Scenarios.AccountValueFromTotals (well-formedness),Passed,00:00:00.1379377,87016,9
Scenarios.E1Totals (well-formedness),Passed,00:00:00.1221343,102845,9
Scenarios.TotalsOfTwo (correctness),Passed,00:00:00.1160519,85921,9
Scenarios.TotalsOfOne (correctness),Passed,00:00:00.1083557,88003,9
Scenarios.TotalsOfTwo (well-formedness),Passed,00:00:00.1072321,72211,9
Scenarios.AccountValueFromTotals (correctness),Passed,00:00:00.1018798,104473,9
Valuation.LoopFromZeroIsAccountTotals (correctness),Passed,00:00:00.0866650,93072,9
Valuation.LoopTotals (well-formedness),Passed,00:00:00.0789558,71709,9
Valuation.AccountTotalsAppend (well-formedness),Passed,00:00:00.0659732,71603,9
