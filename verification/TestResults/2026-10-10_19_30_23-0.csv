TestResult.DisplayName,TestResult.Outcome,TestResult.Duration,TestResult.ResourceCount,RandomSeed
Scenarios.E1Totals (correctness),Passed,00:00:00.8391404,1872572,11
Scenarios.E3Totals (correctness),Passed,00:00:00.4301357,498288,11
Scenarios.E2Totals (correctness),Passed,00:00:00.4087087,626405,11
Valuation.AccountTotalsAppend (correctness),Passed,00:00:00.4022068,423091,11
Scenarios.E4Totals (correctness),Passed,00:00:00.3491996,323275,11
Valuation.AccountTotalsIsTheLoop (well-formedness),Passed,00:00:00.3401781,74762,11
Scenarios.TotalsOfOne (well-formedness),Passed,00:00:00.3309165,67755,11
Scenarios.TotalsUnfold (correctness),Passed,00:00:00.2868273,80155,11
Scenarios.TotalsUnfold (well-formedness),Passed,00:00:00.2827606,72075,11
Valuation.AccountTotals (well-formedness),Passed,00:00:00.2633941,192450,11
Scenarios.TotalsOfOne (correctness),Passed,00:00:00.2485681,87348,11
Valuation.AccountTotalsIsTheLoop (correctness),Passed,00:00:00.2258110,284926,11
Scenarios.AccountValueFromTotals (well-formedness),Passed,00:00:00.2155917,87021,11
Scenarios.AccountValueFromTotals (correctness),Passed,00:00:00.1536626,104494,11
Scenarios.TotalsOfThree (correctness),Passed,00:00:00.1354557,108768,11
Valuation.AccountTotalsAppend (well-formedness),Passed,00:00:00.1341910,71617,11
Scenarios.TotalsOfTwo (correctness),Passed,00:00:00.1340722,101647,11
Scenarios.TotalsOfTwo (well-formedness),Passed,00:00:00.1150621,72171,11
Scenarios.E1Totals (well-formedness),Passed,00:00:00.1086858,101827,11
Valuation.LoopFromZeroIsAccountTotals (correctness),Passed,00:00:00.1055555,93059,11
Valuation.LoopTotals (well-formedness),Passed,00:00:00.0973272,70537,11
Scenarios.TotalsOfThree (well-formedness),Passed,00:00:00.0930747,75839,11
