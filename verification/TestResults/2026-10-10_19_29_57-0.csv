TestResult.DisplayName,TestResult.Outcome,TestResult.Duration,TestResult.ResourceCount,RandomSeed
Scenarios.E1Totals (correctness),Passed,00:00:00.6358168,1593429,8
Scenarios.E2Totals (correctness),Passed,00:00:00.3417278,524594,8
Scenarios.E3Totals (correctness),Passed,00:00:00.3094344,445708,8
Valuation.AccountTotalsAppend (correctness),Passed,00:00:00.2892973,424277,8
Scenarios.E4Totals (correctness),Passed,00:00:00.2801080,414222,8
Valuation.AccountTotalsIsTheLoop (well-formedness),Passed,00:00:00.2744040,74771,8
Scenarios.TotalsUnfold (well-formedness),Passed,00:00:00.2688061,72007,8
Scenarios.TotalsOfTwo (correctness),Passed,00:00:00.2481328,85980,8
Scenarios.TotalsUnfold (correctness),Passed,00:00:00.2401834,80196,8
Scenarios.TotalsOfOne (well-formedness),Passed,00:00:00.2314745,67754,8
Valuation.AccountTotalsIsTheLoop (correctness),Passed,00:00:00.1996790,256724,8
Scenarios.E1Totals (well-formedness),Passed,00:00:00.1757768,101796,8
Valuation.AccountTotals (well-formedness),Passed,00:00:00.1625419,194486,8
Scenarios.TotalsOfThree (correctness),Passed,00:00:00.1401429,93013,8
Scenarios.AccountValueFromTotals (correctness),Passed,00:00:00.1272339,104506,8
Valuation.LoopFromZeroIsAccountTotals (correctness),Passed,00:00:00.1224207,93083,8
Scenarios.AccountValueFromTotals (well-formedness),Passed,00:00:00.1176970,87048,8
Scenarios.TotalsOfOne (correctness),Passed,00:00:00.1139704,90626,8
Scenarios.TotalsOfTwo (well-formedness),Passed,00:00:00.1066133,72178,8
Scenarios.TotalsOfThree (well-formedness),Passed,00:00:00.1044213,75800,8
Valuation.LoopTotals (well-formedness),Passed,00:00:00.0810901,70337,8
Valuation.AccountTotalsAppend (well-formedness),Passed,00:00:00.0756450,71785,8
