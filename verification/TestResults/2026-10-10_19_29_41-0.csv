TestResult.DisplayName,TestResult.Outcome,TestResult.Duration,TestResult.ResourceCount,RandomSeed
Scenarios.E1Totals (correctness),Passed,00:00:00.7778551,2011320,6
Scenarios.E3Totals (correctness),Passed,00:00:00.2997373,442276,6
Scenarios.TotalsOfOne (well-formedness),Passed,00:00:00.2339354,67777,6
Scenarios.E4Totals (correctness),Passed,00:00:00.2289173,402788,6
Scenarios.E2Totals (correctness),Passed,00:00:00.2175601,494025,6
Valuation.AccountTotalsAppend (correctness),Passed,00:00:00.2109711,407483,6
Scenarios.TotalsUnfold (well-formedness),Passed,00:00:00.2022812,72008,6
Valuation.AccountTotalsIsTheLoop (well-formedness),Passed,00:00:00.1887010,74763,6
Scenarios.TotalsUnfold (correctness),Passed,00:00:00.1876779,85897,6
Valuation.AccountTotalsIsTheLoop (correctness),Passed,00:00:00.1323847,256129,6
Scenarios.AccountValueFromTotals (correctness),Passed,00:00:00.1320309,104494,6
Scenarios.TotalsOfThree (correctness),Passed,00:00:00.1253244,108264,6
Scenarios.E1Totals (well-formedness),Passed,00:00:00.1212989,102634,6
Scenarios.AccountValueFromTotals (well-formedness),Passed,00:00:00.1211407,87045,6
Scenarios.TotalsOfThree (well-formedness),Passed,00:00:00.1175348,75773,6
Valuation.AccountTotals (well-formedness),Passed,00:00:00.1149203,197333,6
Scenarios.TotalsOfTwo (correctness),Passed,00:00:00.1116465,101071,6
Scenarios.TotalsOfTwo (well-formedness),Passed,00:00:00.0933464,72160,6
Scenarios.TotalsOfOne (correctness),Passed,00:00:00.0882986,88015,6
Valuation.LoopTotals (well-formedness),Passed,00:00:00.0612633,70221,6
Valuation.AccountTotalsAppend (well-formedness),Passed,00:00:00.0597538,71732,6
Valuation.LoopFromZeroIsAccountTotals (correctness),Passed,00:00:00.0483311,93021,6
